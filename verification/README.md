# Code Mentat: a verified model of one agent turn

Code Mentat answers questions about a repository with the help of a remote model. This project models,
in Dafny, the path one agent turn takes, and proves what that path promises: the prompt is composed,
rounds of inference and repository tools run, exact bodies are sealed and sent under receipts, texts are
redacted, citations are checked, and the result is stored.

Verify everything with `dafny verify dfyconfig.toml`.

## How it is organised

| module | what it models |
|---|---|
| `PromptFrame` | the prompt composer and its parser |
| `SseRound`, `GeminiRound`, `Transcript` | the streams of the two provider adapters, chunk by chunk, and what a response says line by line |
| `AgentWire`, `History` | the provider bodies and the message histories they accept |
| `AgentLoop`, `AuditBundle`, `WiredTurn` | the turn engine, the audit validator, and the turn over real adapters and gateway |
| `Segments`, `AssignmentRedactor`, `TokenRedactor`, `EntropyRedactor`, `Redaction` | the redaction engine |
| `Sorting`, `Framing`, `Paths`, `PacketDigest`, `PacketSeal`, `Approval` | the packet digest and approvals |
| `ProviderBinding`, `ToolReceiptSeal`, `ReceiptProtocol` | provider bindings, tool-egress receipts and their life |
| `RepositoryTools`, `ToolJson`, `ToolResults` | the six repository tools; bounding, redacting and sizing what they find |
| `TurnStore`, `DeltaWriter` | the tables of turns and messages, and the worker that writes deltas |
| `Citations`, `Bundles` | the citation normaliser |
| `EgressTypes`, `Assembly`, `Consent` | packet assembly and consent generations |
| `ScanTree` | the bounded repository scan |
| `Text`, `Utf8`, `Whitespace`, `AgentTypes`, `Wrappers` | shared values |

Conventions. Where the source works on UTF-8 bytes (redaction, digests, prompts, result bounding) a string
is a sequence of bytes, and slicing demands character boundaries as Rust does; where it works on decoded
text (streams, citations, tool arguments) a string is a sequence of characters. Code that computes by
updating variables is a method proved against a function; the laws are lemmas about that function.
`hide` keeps each proof to the definitions it needs.

What stands outside is a parameter of the statements, so they hold for every choice of it: SHA-256,
Shannon entropy, JSON parsing, fresh identifiers, clocks, the file system, the arrival of bytes, and when a
cancellation is noticed. The URL library is assumed to read back a canonical address it accepted. In the
stream models lossy decoding is a parameter too; in the digest models it is defined.

## Findings

- Size guards look at the chunk, so past 1 MiB the same bytes can fail or pass depending on the cut
  (`SseRound.CutMattersPastOneMebibyte`). The Gemini reader depends on the cut when lines after an end mark
  would change what is said, and only then (`GeminiRound.ChunkIndependence`, `GeminiRound.TextAfterMarkIsLost`).
- A private-key block on a single line opens a block that its own end does not close, and the next lines
  are dropped (`Redaction.OneLineBlockStaysOpen`, `Redaction.ShownAfterBegin`).
- A token rule looks at the first occurrence of its prefix only, so a key behind a bare prefix comes through
  the whole pass, and so does a Slack user key before a bot key (`Redaction.KeysGetThrough`); what gets
  through, and why, is `TokenRedactor.ShapedSurvivesExactly`.
- Content cut after redaction never reaches a caller: the byte-limit note it would carry is always
  replaced by the size error (`ToolResults.CutContentIsRefused`).
- File names outside UTF-8 can collide in the packet digest (`PacketSeal.NamesOutsideUtf8Collide`), and a
  text search that reports a line of such a file panics (`RepositoryTools.SearchPanicsExactly`, `RepositoryTools.PrintableNeverPanics`).
- A byte budget of 2^64-1 is no budget: what bounds a scan then is the number of files and the reader's
  10 MiB a file, and some tree exceeds the budget exactly when 1759218604442 files or more are allowed
  (`ScanTree.BudgetHoldsExactly`, `ScanTree.FullRangeHoldsExactly`).
- Cancelling or resetting a consent sheet keeps its generation, so the assembler's late result is still
  accepted and handed out with an empty query (`Consent.LateResultIsAccepted`, `Consent.LateResultExactly`).
- The consent counter protects up to 2^64 generations and not one more (`Consent.SafeExactly`).
- A provider binding verifies with an address that is not canonical; its canonical form verifies too, under
  the same digest (`ProviderBinding.VerifiedUpToCanonical`, `ProviderBinding.VerifiesWithoutCanonical`).
- A call echoed back with a backslash in its path comes back changed (`AgentWire.ArgumentsRoundTrip`).

## Model

| member | source | states |
|---|---|---|
| WiredTurn.Run | crates/mentat-analysis/src/agent_loop.rs:67-322 | One turn over any streams the two adapters can emit and any results the gateway can seal: at most `max_rounds` requests, each well paired and encodable for both providers; at most `max_tool_calls` calls executed, whatever the limit; the results' real JSON within the byte budget; no fingerprint executed three times; a normal return ends with exactly one terminal event whose text is the text shown; a completed audit cites only this turn's results; the returned trace names trace, conversation, turn and snapshot of the request and carries the gate's receipt ids |
| WiredTurn.AdaptersAreLawful | crates/mentat-analysis/src/agent_loop.rs:123-165 | What the loop assumes of a backend (one end event, last; completed text equals the deltas; parts describe the calls; at most 24 calls requested at once) holds of every stream either adapter emits, whatever bytes arrive, Gemini calls being read by the shared tool-call parser |
| WiredTurn.GatewayIsLawful | crates/mentat-analysis/src/repository_tools.rs:195-216 | What the loop assumes of a gateway (call id kept, real JSON size at most `content_bytes`, itself at most 65536) holds of every sealed result |
| AgentLoop.RunBounded | crates/mentat-analysis/src/agent_loop.rs:67-322 | The whole turn, told from the histories its rounds were sent: the first is the request's, each next adds the round's text, calls with their parts, and results in call order; nothing runs after a cancellation; the calls executed are those requested, in order; what is shown is what the rounds said and the progress of their calls; a normal end is the event the last round's end (or the cancellation) calls for, an error has one of the named causes and emits no terminal event. Books, budgets and identity of the trace hold on every return; calls stay within the limit unless it is 65535 and some requested list is longer |
| AgentLoop.TraceNamesTheTurn | crates/mentat-analysis/src/agent_loop.rs:78-93 | The trace returned exists exactly with a repository context, names its id, conversation, turn and snapshot, holds the records and references kept, and the receipt ids the gate gives |
| AgentLoop.ProgressCountsUp | crates/mentat-analysis/src/agent_loop.rs:308-315 | Progress is reported once per call, counted from one in 16 bits, out of the calls of the round |
| AgentLoop.ReadRound | crates/mentat-analysis/src/agent_loop.rs:119-165 | A round's stream is read up to its first end event; what is passed on, the round text and the last parts are exactly those of that prefix, audit text withheld |
| AgentLoop.Conclude | crates/mentat-analysis/src/agent_loop.rs:167-233 | The terminal event emitted for each ending and response contract, against the shown text so far |
| AgentLoop.RunTools | crates/mentat-analysis/src/agent_loop.rs:234-264 | A round that asks for tools: text remembered, budgets checked (the executed calls stay within the limit unless it is 65535 and the list is longer), history extended by text, calls and results message by message; refused for a missing gateway, too many calls, or at the first call that is refused, with the code of that cause |
| AgentLoop.ExecuteCalls | crates/mentat-analysis/src/agent_loop.rs:265-316 | Calls executed once each in order and logged at their own positions; trace, results, byte total and fingerprint counts stay in agreement on success and on every failure, and a failure names its call and its cause |
| AgentLoop.AppendResult | crates/mentat-analysis/src/agent_loop.rs:287-307 | The result enters trace and history together |
| AgentLoop.CountFingerprint | crates/mentat-analysis/src/agent_loop.rs:266-274 | A call is refused exactly when its fingerprint fails or has been counted twice already, each with its own code |
| AgentLoop.RoundKeepsSendable | crates/mentat-analysis/src/agent_loop.rs:240-307 | Pushing text, calls and results keeps a history well paired and its parts matched |
| AgentLoop.ResultBudget | crates/mentat-analysis/src/agent_loop.rs:276-286 | The JSON bytes of all results appended to the history sum to at most `max_tool_result_bytes` |
| AgentLoop.TraceIdsMatchRecords | crates/mentat-analysis/src/agent_loop.rs:287-302 | The trace's source-reference ids are the concatenation of its call records' ids, in order |
| AgentLoop.AuditCitesThisTurn | crates/mentat-analysis/src/agent_loop.rs:351-407 | Every evidence entry of a completed audit equals a source reference some call of this very turn returned |
| AgentLoop.PassedIsShown | crates/mentat-analysis/src/agent_loop.rs:123-148 | Passing events on shows exactly the streamed text to an advisor and none to an audit |
| AuditBundle.ValidateAuditBundle | crates/mentat-analysis/src/agent_loop.rs:351-444 | The loop over evidence, claims and conflicts decides what the one-expression specification decides, error for error |
| AuditBundle.AcceptedCitesOnlyTheTrace | crates/mentat-analysis/src/agent_loop.rs:376-439 | Accepted bundles cite only the trace; every claim that is not Unknown cites at least one entry |
| AuditBundle.AcceptedExactly | crates/mentat-analysis/src/agent_loop.rs:351-444 | A bundle is accepted if and only if it is of the trace's snapshot, answers something, repeats no evidence id, holds only source references of the turn (the last of their id), and every claim and conflict stands on it; accepted, only its request id, raw text and composed answer are replaced |
| RepositoryTools.ExcerptIs | crates/mentat-analysis/src/repository_tools.rs:440-456 | An excerpt is the front of the redacted text, ends in no line feed, and of ASCII text keeps up to 512 characters |
| AuditBundle.CatalogSound | crates/mentat-analysis/src/agent_loop.rs:376-380 | A catalog entry is a source reference of the trace with that id |
| SseRound.InferAgentRound | crates/mentat-inference-openai/src/openai_adapter.rs:616-723 | The chunk loop emits the events of the incremental specification; and for every response given line by line as JSON (content strings, fragments of calls by index, id, name and arguments), however cut: the start, the texts in order, then the completed text, the calls put together per index and parsed in ascending order, or the failure its ending or its calls deserve |
| SseRound.ScriptIsPlayed | crates/mentat-inference-openai/src/openai_adapter.rs:616-723 | That statement as a lemma, for responses of up to 1 MiB ended by an end line, by closing, by a read error or by cancellation |
| SseRound.ExcessIsRefused | crates/mentat-inference-openai/src/openai_adapter.rs:683-699 | A response whose fragments come to more than 24 calls, or to more than 64 KiB of arguments under one index, ends in the argument-limit failure |
| SseRound.FourMebibytesAreRead | crates/mentat-inference-openai/src/openai_adapter.rs:634-640 | Four MiB of blank lines are read and complete; one byte more fails |
| SseRound.Drain | crates/mentat-inference-openai/src/openai_adapter.rs:642-700 | Draining complete lines from the buffer is a fold over the buffer's lines and leaves the remainder |
| SseRound.ApplyToolDeltas | crates/mentat-inference-openai/src/openai_adapter.rs:681-699 | Tool-call fragments are appended per index, stopping at the argument and call limits |
| SseRound.ChunkIndependence | crates/mentat-inference-openai/src/openai_adapter.rs:632-701 | A chunked response emits the events of the uncut one if and only if no chunk trips a size guard before the round is over |
| SseRound.ChunkIndependenceUpToOneMebibyte | crates/mentat-inference-openai/src/openai_adapter.rs:632-640 | Up to 1 MiB in total the events depend on the bytes alone (lines as in sections 9.2.5 and 9.2.6 of the HTML Living Standard, `\n` only) |
| SseRound.CutMattersPastOneMebibyte | crates/mentat-inference-openai/src/openai_adapter.rs:634-640 | One byte more and the guard does look at the cut: the same bytes fail in one chunk and pass in two |
| SseRound.LinesAcrossCut | crates/mentat-inference-openai/src/openai_adapter.rs:641-644 | Cutting a byte string anywhere leaves its lines alone once the remainder is carried over |
| SseRound.FeedIsFold | crates/mentat-inference-openai/src/openai_adapter.rs:631-701 | The incremental reader refines the fold over whole lines from any intermediate state |
| SseRound.RoundIsLawful | crates/mentat-inference-openai/src/openai_adapter.rs:616-723 | Exactly one end event, last; a completed text is the concatenation of the deltas |
| SseRound.PendingIsConcatenation | crates/mentat-inference-openai/src/openai_adapter.rs:683-693 | The call pending under an index is the in-order concatenation of every fragment sent under that index; no other index is pending |
| SseRound.RequestedCallsFollowIndices | crates/mentat-inference-openai/src/openai_adapter.rs:655-669 | The calls a round requests are its pending calls, parsed, one per index and by ascending index |
| SseRound.RequestsAreCapped | crates/mentat-inference-openai/src/openai_adapter.rs:681-699 | Whatever arrives, a round never requests more than 24 calls |
| GeminiRound.InferAgentRound | crates/mentat-inference-openai/src/gemini_adapter.rs:640-731 | The chunk loop emits the events of the incremental specification; and for every response given line by line as JSON parts, however cut: the start, the texts in order, thoughts saying nothing, then the completed text or the calls with the parts that asked for them, or the refusal of the first call that does not work |
| GeminiRound.ScriptIsPlayed | crates/mentat-inference-openai/src/gemini_adapter.rs:640-731 | That statement as a lemma, for responses of up to 1 MiB with no end mark but a last one |
| GeminiRound.FirstIsRefused | crates/mentat-inference-openai/src/gemini_adapter.rs:684-707 | The first call past 24, over 64 KiB, without a snapshot or not parsed fails the round there and then, after the text before it, with the code of that cause |
| GeminiRound.Drain | crates/mentat-inference-openai/src/gemini_adapter.rs:669-714 | Draining stops at the first end mark, leaving what follows it in the buffer |
| GeminiRound.ReadParts | crates/mentat-inference-openai/src/gemini_adapter.rs:675-713 | Parts in order: thoughts skipped, text streamed, function calls checked and paired with their part |
| GeminiRound.RoundIsLawful | crates/mentat-inference-openai/src/gemini_adapter.rs:640-731 | Exactly one end event, last; completed text equals the deltas; at most 24 calls requested, with as many parts as calls, of the same names, in order |
| GeminiRound.ChunkIndependence | crates/mentat-inference-openai/src/gemini_adapter.rs:657-716 | However a response of up to 1 MiB is cut into chunks, the events are the same, if and only if the lines through the first end mark say what all lines say |
| GeminiRound.FeedReads | crates/mentat-inference-openai/src/gemini_adapter.rs:657-716 | However it is cut, a response is read as some first lines of it, no fewer than through the first end mark |
| GeminiRound.EveryCutReadsAll | crates/mentat-inference-openai/src/gemini_adapter.rs:657-716 | Of any length: when nothing after the first end mark would change what is said, a cut emits the events of all lines if and only if no chunk trips a size guard before the round is over |
| GeminiRound.EndMarkLastReadsAll | crates/mentat-inference-openai/src/gemini_adapter.rs:657-716 | In particular a response whose only end mark is its last line emits the events of all its lines however it is cut, if and only if no chunk trips a size guard |
| GeminiRound.TextAfterMarkIsLost | crates/mentat-inference-openai/src/gemini_adapter.rs:672 | A concrete response on which the cut decides: text after an end mark is lost in one chunk and shown in two |
| AgentWire.OpenAiMessages | crates/mentat-inference-openai/src/agent_wire.rs:14-59 | Encoding succeeds exactly when every role fits its content; each wire message has the role and text, the call ids, tool words and arguments key by key, or the result, of the message it stands for |
| AgentWire.GeminiContents | crates/mentat-inference-openai/src/agent_wire.rs:73-147 | Encoding succeeds exactly when every message fits, and fails for the first that does not with the code of the misfit; text by speaker, parts echoed or calls spelled out key by key, each result under the word of the last call with its id and the provider's own id last told for it, or none if none was told |
| AgentWire.CallNameIs | crates/mentat-inference-openai/src/agent_wire.rs:85-141 | A result goes back under the word of the last call made under its id; without such a call there is no word |
| AgentWire.NativeIdIs | crates/mentat-inference-openai/src/agent_wire.rs:100-141 | A result goes back under the id the provider told last for calls under that id, if it told any |
| AgentWire.WellPairedFits | crates/mentat-inference-openai/src/agent_wire.rs:77-146 | In a well-paired history every role fits and every result has a call before it |
| AgentWire.SendableHistoryEncodes | crates/mentat-inference-openai/src/agent_wire.rs:19-147 | The role, continuation and missing-call errors cannot be met by a history of the shape the loop keeps |
| AgentWire.ParseToolCall | crates/mentat-inference-openai/src/agent_wire.rs:160-210 | A parsed call has the name asked for, the request's snapshot, arguments of that tool, and the provider's id where that reads as one |
| AgentWire.ParsedIsWithinBounds | crates/mentat-inference-openai/src/agent_wire.rs:263-315 | Parsed arguments are within every bound the checks promise |
| AgentWire.ArgumentsRoundTrip | crates/mentat-inference-openai/src/agent_wire.rs:228-261 | Echoing a call back and parsing it gives the same arguments if and only if no backslash in its path was rewritten |
| History.WellPairedAppend | crates/mentat-analysis/src/agent_loop.rs:240-307 | Well-paired histories concatenate |
| PromptFrame.Compose | crates/mentat-persona/src/prompt.rs:197-225 | Composing succeeds exactly for a loadable catalog and editable texts of at most 32 KiB; the prompt is the magic line and four sections, each spelled as header, length, body and line feed |
| PromptFrame.ParseComposition | crates/mentat-persona/src/prompt.rs:252-272 | The cursor parser decides what the specification on suffixes decides, including every error |
| PromptFrame.ReadFramedSection | crates/mentat-persona/src/prompt.rs:285-334 | One section: header shape, decimal length, body, line feed; the cursor ends where the rest starts |
| PromptFrame.ReadLine | crates/mentat-persona/src/prompt.rs:336-346 | One line and the cursor after it, or an error at the end of the text |
| PromptFrame.ComposeParse | crates/mentat-persona/src/prompt.rs:197-272 | Parsing a composed prompt gives back exactly the four bodies and consumes every byte, whatever the bodies imitate |
| PromptFrame.ComposeInjective | crates/mentat-persona/src/prompt.rs:197-225 | Equal composed prompts come from equal inputs, revision and repository state included |
| PromptFrame.CanonicalTextInjective | crates/mentat-persona/src/prompt.rs:146-168 | Equal repository lines come from equal repository states |
| PromptFrame.FrameRoundTrip | crates/mentat-persona/src/prompt.rs:243-334 | Reading back one pushed section, whatever follows it |
| PromptFrame.FrameSound | crates/mentat-persona/src/prompt.rs:285-334 | Whatever a section reader accepts is spelled as a header line, a body of the declared length and a line feed |
| PromptFrame.ParseSound | crates/mentat-persona/src/prompt.rs:252-272 | Whatever the parser accepts is spelled like a composition to the last byte: magic line, four headers that name their section and declare the length of their body, bodies, line feeds |
| Text.ParsePrinted | crates/mentat-persona/src/prompt.rs:243-334 | Printing a length and parsing it back gives the length |
| Redaction.ScanAndRedactSecrets | crates/mentat-analysis/src/egress.rs:396-427 | The whole pass against its specification, text and count; the output is valid UTF-8 and no maximal token run of it has 24 characters, a digit, a letter and four bits of entropy a byte |
| Redaction.AssignedValuesAreCaught | crates/mentat-analysis/src/egress.rs:396-766 | The complete pass turns `password=hunter2` into its plain marker and a quoted value that holds a delimiter into its quoted marker, and counts one secret each, whatever the entropy function |
| Redaction.BlockIsCaught | crates/mentat-analysis/src/egress.rs:401-416 | The complete pass turns a private-key block into one marker line, counted once |
| Redaction.ScrubLines | crates/mentat-analysis/src/egress.rs:396-424 | The block state machine over lines is the position-wise specification: a line is dropped exactly when a block is open before it |
| Redaction.OpenStep | crates/mentat-analysis/src/egress.rs:401-416 | A begin opens a block, an end closes it, nothing else matters |
| Redaction.WholeBlock | crates/mentat-analysis/src/egress.rs:401-416 | A whole private-key block becomes one marker line, counted once, whatever it holds |
| Redaction.BlockContentIsIrrelevant | crates/mentat-analysis/src/egress.rs:401-416 | Texts that differ only inside a block come out the same, everything after it included |
| Redaction.ShownAfterBegin | crates/mentat-analysis/src/egress.rs:401-416 | After a line that begins a block, whatever else it holds, a later line is shown if and only if some line in between ends the block and none after that begins another |
| Redaction.OneLineBlockStaysOpen | crates/mentat-analysis/src/egress.rs:403-408 | A private-key block written on one line swallows the ordinary line after it, in any text and in that text of two lines |
| Redaction.RedactLineSecrets | crates/mentat-analysis/src/egress.rs:457-573 | A line is the assignment pass followed by the token pass, counts added, UTF-8 kept |
| Redaction.LineIsSpliced | crates/mentat-analysis/src/egress.rs:457-766 | Each pass only replaces spans: kept and replaced pieces together are its input, in order |
| Redaction.RedactedIsClean | crates/mentat-analysis/src/egress.rs:425-426 | Nothing in a redacted text qualifies |
| Redaction.KeysGetThrough | crates/mentat-analysis/src/egress.rs:396-573 | The complete pass replaces a key that stands alone and leaves the same key in the text when a bare prefix precedes it; a Slack user key stays when a bot key follows |
| Redaction.TakeLine | crates/mentat-analysis/src/egress.rs:401 | One step of the line iterator |
| Redaction.LinesOfJoined | crates/mentat-analysis/src/egress.rs:401 | Reading back written lines gives them, unless one holds a line feed or ends in a carriage return |
| EntropyRedactor.RedactHighEntropyTokens | crates/mentat-analysis/src/egress.rs:430-454 | The scan is the rendering of the text cut at its maximal token runs, its count the number of runs replaced; slices lie on character boundaries |
| EntropyRedactor.OnePassSuffices | crates/mentat-analysis/src/egress.rs:430-454 | After one pass no run is left to replace, whatever the entropy function |
| EntropyRedactor.SecondPassIsIdentity | crates/mentat-analysis/src/egress.rs:430-454 | A second pass changes nothing and counts nothing |
| EntropyRedactor.CleanMeansNoRun | crates/mentat-analysis/src/egress.rs:439-446 | A pass replaces nothing if and only if no maximal token run qualifies |
| EntropyRedactor.RunsPartition | crates/mentat-analysis/src/egress.rs:434-453 | Kept and replaced pieces together are the input |
| EntropyRedactor.PiecesAreRight | crates/mentat-analysis/src/egress.rs:439-449 | A piece is replaced, by the marker, exactly when it is a run of letters, digits and encoding signs with at least 24 characters, four bits of entropy a byte, a digit and a letter |
| TokenRedactor.RedactTokens | crates/mentat-analysis/src/egress.rs:464-573 | The token pass is the rendering of the line cut at the best match of each remaining suffix; slices lie on character boundaries |
| TokenRedactor.EarliestMatch | crates/mentat-analysis/src/egress.rs:465-558 | The ten rules tried in order pick the best match |
| TokenRedactor.BestIsEarliest | crates/mentat-analysis/src/egress.rs:575-591 | The chosen span is a rule's own, starts no later than any other rule's, ties going to rule order; none exactly when no rule matches |
| TokenRedactor.SpansPartition | crates/mentat-analysis/src/egress.rs:560-571 | Disjoint spans are replaced left to right; everything else is kept in order |
| TokenRedactor.KeptExactly | crates/mentat-analysis/src/egress.rs:465-571 | A byte is kept if and only if, at some point the loop comes to, no rule finds the first occurrence of its prefix both shaped and starting at or before that byte |
| TokenRedactor.ShapedSurvivesExactly | crates/mentat-analysis/src/egress.rs:465-571 | A key-shaped occurrence gets past the rules if and only if, in some rest of the line the loop comes to, an occurrence of its prefix that is not shaped stands before it (or, for a second spelling, the first stands behind it) and no other rule replaces what starts at or before it |
| TokenRedactor.MatchBoundaries | crates/mentat-analysis/src/egress.rs:594-641 | Every span starts and ends between characters |
| TokenRedactor.FindTokenEnd | crates/mentat-analysis/src/egress.rs:594-613 | The end of the run of token characters, if it is long enough |
| TokenRedactor.TokenEndIs | crates/mentat-analysis/src/egress.rs:594-613 | The span found is exactly the maximal run of token characters, when it is long enough |
| TokenRedactor.JwtEndIs | crates/mentat-analysis/src/egress.rs:616-641 | The span found is exactly the maximal dotted run, when it has two dots and at least 30 bytes |
| TokenRedactor.FindJwtEnd | crates/mentat-analysis/src/egress.rs:616-641 | Exactly two dots in the dotted run and at least 30 bytes; the early exit on a third dot changes nothing |
| TokenRedactor.ShadowedKeySurvives | crates/mentat-analysis/src/egress.rs:488-493 | Under all ten rules, a key that is replaced when alone is kept when a bare prefix stands before it |
| TokenRedactor.UserKeySurvives | crates/mentat-analysis/src/egress.rs:554-558 | Under all ten rules, a Slack user key is kept when a bot key stands behind it: the second spelling is looked for only where the first is absent |
| AssignmentRedactor.RedactAssignments | crates/mentat-analysis/src/egress.rs:660-766 | The assignment pass is the rendering of the line cut step by step; stated on the line: at each step the exposed value is replaced by its marker and counted, or the text through the key is kept, or, without a key, the rest; it terminates on every line and keeps UTF-8 |
| AssignmentRedactor.NextStep | crates/mentat-analysis/src/egress.rs:678-757 | A value is replaced if and only if there is an earliest key, a first ':' or '=' behind it, and text behind the blanks after that which does not begin with the marker; the span is the whole value, quoted or plain; otherwise the text through the key is kept; spans lie between character boundaries |
| AssignmentRedactor.StepExactly | crates/mentat-analysis/src/egress.rs:678-757 | That if-and-only-if, for every line and every list of keys |
| AssignmentRedactor.AssignedIsReplaced | crates/mentat-analysis/src/egress.rs:660-757 | Whatever plain value is assigned to one of the seven words, it is replaced by the marker, counted once |
| AssignmentRedactor.EarliestKeyIsFirst | crates/mentat-analysis/src/egress.rs:678-694 | The key acted on stands where no key stands before it; of several there, the first in the list; none exactly when no key occurs |
| AssignmentRedactor.ValueEnds | crates/mentat-analysis/src/egress.rs:698-740 | A quoted value ends right after its first quote preceded by an even run of backslashes, or at the end; a plain one at its first delimiter |
| AssignmentRedactor.ScanQuoted | crates/mentat-analysis/src/egress.rs:700-730 | The escape flag is the parity of the backslashes before the position |
| AssignmentRedactor.SpansPartition | crates/mentat-analysis/src/egress.rs:678-763 | Disjoint value spans are replaced left to right; everything else is kept in order |
| AssignmentRedactor.NoSeparatorNoValue | crates/mentat-analysis/src/egress.rs:678-757 | A line without a separator is left alone by the assignment pass |
| AssignmentRedactor.FindAsciiCaseInsensitive | crates/mentat-analysis/src/egress.rs:644-657 | The first case-insensitive occurrence of a key, found at character starts only, with both ends on boundaries |
| Utf8.SplitValid | crates/mentat-analysis/src/egress.rs:430-766 | Slicing well-formed text at a boundary leaves well-formed text on both sides (section 3 of RFC 3629) |
| Utf8.AroundAscii | crates/mentat-analysis/src/egress.rs:594-766 | An ASCII byte of well-formed text is a character of its own |
| Utf8.LossyOfValid | crates/mentat-analysis/src/egress.rs:83-87 | Lossy decoding leaves well-formed text alone |
| Utf8.LossyIsValid | crates/mentat-analysis/src/egress.rs:83-87 | Lossy decoding always gives well-formed text |
| PacketDigest.CanonicalDigest | crates/mentat-analysis/src/egress.rs:65-172 | The fed bytes are the specified pre-image, whatever order the hash map is walked in |
| PacketSeal.SealsExactly | crates/mentat-analysis/src/egress.rs:65-172 | With UTF-8 paths, two packets and profiles have the same pre-image if and only if they agree on every sealed field: files and references as multisets, texts by digest per path, address up to trailing slashes |
| PacketSeal.PreImageShowsExactly | crates/mentat-analysis/src/egress.rs:65-172 | For all paths: equal pre-images exactly when the shown fields agree |
| PacketSeal.MiddleDecodes | crates/mentat-analysis/src/egress.rs:87-150 | The four variable-length groups are told apart by their field names |
| PacketSeal.NamesOutsideUtf8Collide | crates/mentat-analysis/src/egress.rs:87-103 | Names outside UTF-8 can collide: two packets listing different files share a pre-image |
| Framing.FramesInjective | crates/mentat-analysis/src/egress.rs:45-50 | A sequence of length-prefixed values is read back in one way only |
| Framing.U64BytesInjective | crates/mentat-analysis/src/egress.rs:46-49 | Eight big-endian bytes determine the number |
| Sorting.SortForgetsOrder | crates/mentat-analysis/src/egress.rs:87-123 | Sorting by a total order identifies exactly the sequences with the same elements |
| Sorting.SortsAgreeExactly | crates/mentat-analysis/src/tool_egress.rs:193-200 | Stable sorting identifies exactly the sequences whose ties agree in order |
| Sorting.SortIsIdempotent | crates/mentat-analysis/src/tool_egress.rs:106-112 | Sorting what is sorted changes nothing |
| Approval.ApprovedIsSent | crates/mentat-analysis/src/egress.rs:220-326 | What `new` accepts passes the integrity check and becomes a request with the packet's context and redacted question, in which nothing qualifies as a secret |
| Approval.IssuedIsAcceptedExactly | crates/mentat-analysis/src/egress.rs:196-285 | The receipt issued for a sealed packet is accepted if and only if question, snapshot and sources fit |
| Approval.OneReceiptOnePacket | crates/mentat-analysis/src/egress.rs:254-265 | One receipt approves one packet and target up to list order, short of a digest collision |
| Approval.SourcesAgreeIsConsistent | crates/mentat-analysis/src/egress.rs:178-193 | Comparing the sorted, deduplicated lists compares the sets of paths |
| ToolReceiptSeal.CanonicalDigest | crates/mentat-analysis/src/tool_egress.rs:173-221 | The bytes digested are the framed fields: seventeen fixed, five per sorted reference |
| ToolReceiptSeal.SealsExactly | crates/mentat-analysis/src/tool_egress.rs:173-221 | Equal pre-images if and only if the seventeen fields and the sorted references, as shown, agree |
| ToolReceiptSeal.RefFieldsDecode | crates/mentat-analysis/src/tool_egress.rs:201-207 | Groups of five fields decode uniquely |
| ToolReceiptSeal.PreparedVerifies | crates/mentat-analysis/src/tool_egress.rs:67-170 | What `prepare` returns verifies for its own body at any later status and time, and is refused for a body with another digest; its references are the envelope's, sorted |
| ToolReceiptSeal.PreparesWhatVerifies | crates/mentat-analysis/src/tool_egress.rs:67-156 | Under a live capability whose scope covers the envelope, preparing succeeds if and only if the receipt it would seal passes verification |
| ToolReceiptSeal.LifeIsNotSealed | crates/mentat-analysis/src/tool_egress.rs:173-221 | The seal does not depend on its own digest, the status or the times |
| ToolReceiptSeal.AlterationIsCaught | crates/mentat-analysis/src/tool_egress.rs:140-156 | A receipt altered in anything sealed fails verification under the same digest, short of a collision |
| ToolReceiptSeal.OrderDoesNotMatter | crates/mentat-analysis/src/tool_egress.rs:193-200 | Reference order does not matter when ties under the sort key keep their order |
| ToolReceiptSeal.TiedReferencesKeepTheirOrder | crates/mentat-analysis/src/tool_egress.rs:194-200 | The sort key leaves the payload digest out: swapping two references that differ only there changes the pre-image |
| ProviderBinding.MadeBindingVerifies | crates/mentat-core/src/models.rs:648-729 | A binding that was made verifies, and rebuilding it from its own address gives the same binding |
| ProviderBinding.CanonicalIsOwnIdentity | crates/mentat-core/src/models.rs:648-714 | An acceptable address is the identity of some endpoint if and only if it is its own |
| ProviderBinding.VerifiedUpToCanonical | crates/mentat-core/src/models.rs:716-729 | A binding that verifies keeps verifying, under the same digest, with its address put in canonical form; that form is the binding itself if and only if its address was canonical already |
| ProviderBinding.VerifiesWithoutCanonical | crates/mentat-core/src/models.rs:716-729 | A binding that verifies although its address is not canonical |
| ReceiptProtocol.GuardedSend | crates/mentat-inference-openai/src/openai_adapter.rs:541-609 | On every path (partial authorization failure, header error, revocation before sending or in flight, cancellation, network error, future dropped at any point) each receipt prepared leaves Prepared exactly once; a body with tool results is sent exactly when each of them was authorized and nothing stopped it, and then there is one new receipt per result, with the status the outcome deserves: Sent for a response, unknown without one; nothing is sent after a revocation; earlier receipts are untouched |
| ReceiptProtocol.SendAndSettle | crates/mentat-inference-openai/src/openai_adapter.rs:552-609 | From pending receipts to response: when the send starts and whether a response arrives, and on every way out the batch settled with the status that outcome deserves |
| ReceiptProtocol.Gate.AuthorizeExactBody | crates/mentat-app/src/tool_egress_gate.rs:43-166 | Succeeds if and only if there is a tool result, each is of the context's snapshot, answers a call asked for, and was encoded, sealed and admitted, and the lock is sound; then one fresh receipt per tool result, all Prepared for this body; otherwise the error of the first result refused (or of the whole), and those already prepared are Failed |
| ReceiptProtocol.Gate.Abandon | crates/mentat-app/src/tool_egress_gate.rs:191-201 | A partial authorization is settled as Failed |
| ReceiptProtocol.Gate.Finish | crates/mentat-app/src/tool_egress_gate.rs:168-181 | The batch changes status together or not at all |
| ReceiptProtocol.PendingEgress.Finish | crates/mentat-inference/src/lib.rs:44-52 | The pending ids are cleared exactly when the change succeeded |
| ReceiptProtocol.PendingEgress.Drop | crates/mentat-inference/src/lib.rs:54-64 | Dropping settles what is still pending as unknown, and nothing else |
| ReceiptProtocol.ReceiptStore.CheckBatch | crates/mentat-storage/src/grounding_store.rs:317-378 | The batch checks: distinct, all present, all in the expected status, all for one body |
| ReceiptProtocol.ReceiptStore.CompareAndSetBatch | crates/mentat-storage/src/grounding_store.rs:292-299 | An atomic compare-and-set of a whole batch: it succeeds if and only if the ids are distinct, present, Prepared and for one body; then exactly their status changes, logged once per receipt |
| ReceiptProtocol.SetAllAgrees | crates/mentat-storage/src/grounding_store.rs:379-400 | The rows stay in agreement with the log of transitions: Prepared rows have none, others exactly one |
| TurnStore.SqliteStorage.BeginTurn | crates/mentat-storage/src/conversation.rs:237-275 | All rows of a new turn or an error and no change |
| TurnStore.BeginExactly | crates/mentat-storage/src/conversation.rs:237-275 | A turn begins if and only if its three rows fit together and take no id, sequence number or ordinal another row of the conversation has |
| TurnStore.SqliteStorage.AppendAssistantDelta | crates/mentat-storage/src/conversation.rs:277-300 | Succeeds exactly on an open assistant message; then its markdown ends in the delta, its status is Streaming, and no other field, row or table changes |
| TurnStore.SqliteStorage.FinishTurn | crates/mentat-storage/src/conversation.rs:302-312 | A terminal update as one transaction, against its specification |
| TurnStore.SqliteStorage.FinishTurnWithGrounding | crates/mentat-storage/src/conversation.rs:331-355 | Trace and terminal update together or not at all, after both binding checks |
| TurnStore.SqliteStorage.ApplyTerminal | crates/mentat-storage/src/conversation.rs:534-682 | The statements run one after the other compute the specified tables or an error |
| TurnStore.TerminalReadsBack | crates/mentat-storage/src/conversation.rs:557-595 | A terminal update succeeds if and only if it hits an open assistant message of its open turn (and, for an audit, a first clean result under its contract); then it reads back with the text, status, trace and freshness it carried, closes its turn and touches no other field or row |
| TurnStore.GroundedReadsBack | crates/mentat-storage/src/conversation.rs:331-355 | With a grounding trace: it succeeds if and only if it may end its turn and the trace is the turn's own and the one the update names; then the trace is kept and the message names it |
| TurnStore.ReachableConsistent | crates/mentat-storage/src/conversation.rs:237-682 | In every state any run of transactions and restarts reaches, the tables are consistent |
| TurnStore.ReachableReads | crates/mentat-storage/src/conversation.rs:900-938 | In every reachable state a turn is completed exactly when its assistant message is no longer open, Failed holds exactly with an error code, and reading a status back never fails |
| TurnStore.AtMostOneEnding | crates/mentat-storage/src/conversation.rs:584-594 | In every run at most one terminal update of a turn succeeds, and none once it is completed |
| TurnStore.FinalMessagesStay | crates/mentat-storage/src/conversation.rs:568-569 | A final message is never changed again |
| TurnStore.RecoverConsistent | crates/mentat-storage/src/db.rs:559-586 | Startup recovery closes what was open and keeps the tables consistent |
| DeltaWriter.PersistDeltas | crates/mentat-app/src/stream_store.rs:7-29 | However deltas, timer ticks and other tasks' transactions interleave, the worker fails or succeeds and leaves the tables as the interleaving specification says |
| DeltaWriter.BatchingIsInvisible | crates/mentat-app/src/stream_store.rs:7-29 | Left alone, the worker succeeds: the message's markdown ends up as it was followed by the concatenation of all deltas, its status Streaming if there was any text, and no other field, row or table changes, however the deltas were batched |
| DeltaWriter.WrittenAt4Kib | crates/mentat-app/src/stream_store.rs:14-24 | Without a tick, text stays in the buffer until it comes to 4096 bytes; then all of it is written |
| Utf8.LossyReplaces | crates/mentat-analysis/src/egress.rs:83-87 | Lossy decoding gives one replacement character for each byte that cannot begin a character and one for the front of a character that breaks off |
| DeltaWriter.EndedMidway | crates/mentat-app/src/stream_store.rs:7-45 | When another task closes the message between two flushes, the message stays what that made of it, and the worker fails if and only if text was buffered or still to come |
| DeltaWriter.Flush | crates/mentat-app/src/stream_store.rs:30-45 | One flush: the buffer is emptied, the text appended or refused |
| Citations.ValidateCitations | crates/mentat-analysis/src/answer_bundle.rs:108-183 | The passes over evidence, claims and conflicts compute the specified bundle; stated on the bundle sent: a claim keeps its classification if and only if what it cites is sound, distinct and sufficient and its confidence in range, cites only sound entries of its own, sorted, and is downgraded otherwise; a conflict stays if and only if it cites sound entries without repetition; nothing else changes |
| Citations.NormalizedIsSound | crates/mentat-analysis/src/answer_bundle.rs:108-183 | Afterwards every claim that is not Unknown cites, without duplicates, sole entries of their id that are of this snapshot, carry the file's hash, lines the file has and words that stand there, with confidence in [0, 1]; conflicts too |
| Citations.NormalizedIsIdempotent | crates/mentat-analysis/src/answer_bundle.rs:108-183 | A second call changes nothing |
| Citations.ClaimKeptExactly | crates/mentat-analysis/src/answer_bundle.rs:133-167 | A claim keeps its classification if and only if its ids were valid, distinct and sufficient and its confidence in range |
| Citations.CitableIsSound | crates/mentat-analysis/src/answer_bundle.rs:117-131 | A citable id names exactly one entry, valid as sent and as kept |
| Citations.CitationExactly | crates/mentat-analysis/src/answer_bundle.rs:214-272 | An entry passes the check if and only if it is of this snapshot, its file's first record has its hash and its lines, and the excerpt stands in them |
| Citations.CitableExactly | crates/mentat-analysis/src/answer_bundle.rs:117-131 | An id may be cited if and only if it has one entry and that one checks out as it was sent |
| Citations.EntryIsMarked | crates/mentat-analysis/src/answer_bundle.rs:117-131 | What normalising leaves of an entry: its snapshot rewritten, and a mark before the excerpt exactly where it may not be cited |
| Citations.MatchIsVerbatim | crates/mentat-analysis/src/answer_bundle.rs:255-272 | A matching excerpt occurs, up to line-break style and outer blanks, within the cited lines |
| Citations.TrimmedIsContained | crates/mentat-analysis/src/answer_bundle.rs:271 | Comparing the trimmed range as a whole adds nothing to searching it |
| Consent.ApprovedPacketIsCurrent | crates/mentat-analysis/src/consent.rs:17-74 | In every interleaving with at most 2^64 generations, a packet that can be taken belongs to the current generation and includes no currently excluded path |
| Consent.SafeExactly | crates/mentat-analysis/src/consent.rs:25-74 | All runs of at most n generations are safe in that sense if and only if n is at most 2^64 |
| Consent.LateResultIsAccepted | crates/mentat-analysis/src/consent.rs:17-74 | From the start: an assembly begun and then cancelled or reset, and its result is still handed out for approval, with an empty query |
| Consent.LateResultExactly | crates/mentat-analysis/src/consent.rs:47-55 | A result of a generation, delivered after any further events, becomes the packet to approve if and only if those events have started no generation (or a multiple of 2^64); otherwise it changes nothing |
| Consent.WrappedGenerationFails | crates/mentat-analysis/src/consent.rs:25-33 | One generation more than the counter holds and an excluded path can reach approval |
| Consent.ConsentAssemblyState.BeginAssembly | crates/mentat-analysis/src/consent.rs:25-33 | Starts the next generation in 64 bits, remembers the query and forgets the packet, nothing else |
| Consent.ConsentAssemblyState.ApplyExclusionToggle | crates/mentat-analysis/src/consent.rs:35-45 | Excludes or includes exactly that path, starts a generation, keeps the query and forgets the packet |
| Consent.ConsentAssemblyState.AcceptPacket | crates/mentat-analysis/src/consent.rs:47-55 | Keeps a packet of the current generation, to show and to approve; ignores any other |
| Consent.ConsentAssemblyState.TakeApprovedPacket | crates/mentat-analysis/src/consent.rs:65-74 | Hands packet and query out once, exactly when a packet is pending and nothing is being rebuilt; keeps generation and exclusions |
| Consent.ConsentAssemblyState.Cancel | crates/mentat-analysis/src/consent.rs:76-81 | Drops packet and query, keeps the generation |
| Consent.ConsentAssemblyState.Reset | crates/mentat-analysis/src/consent.rs:17-23 | Drops everything but the generation |
| Assembly.Assemble | crates/mentat-analysis/src/egress.rs:861-931 | References, files and texts grow in step: up to eight of the files that may be included (not excluded, not sensitive, scored three or more, document or entry point), each referred to with all its lines and its text; fewer only if there are no more; the excluded list is every refused file; the rest of the packet is as it was |
| ToolResults.Seal | crates/mentat-analysis/src/repository_tools.rs:188-216 | Bound, redact, bound again, size with a placeholder, write the size in; what is returned was redacted whole and nothing in it qualifies as a secret; every reference is as found but for its redacted excerpt; at most 128 omissions |
| ToolResults.Execute | crates/mentat-analysis/src/repository_tools.rs:119-217 | A call is refused in the order of the checks, each with its code, or answered by its own tool with its own arguments and sealed; an answer belongs to the gateway's snapshot and to the call; a stale or partial snapshot answers nothing but the status; nothing in an answer qualifies as a secret |
| ToolResults.SizeCoversEncoding | crates/mentat-analysis/src/repository_tools.rs:195-216 | The real JSON is at most `content_bytes`, itself at most 65536, and shorter by exactly the digits the size is short of ten; at most 128 omissions; the call id is the call's |
| ToolResults.CutContentIsRefused | crates/mentat-analysis/src/repository_tools.rs:181-216 | A cut made after redaction is never returned: content that long leaves no room for the rest |
| ToolResults.BoundContent | crates/mentat-analysis/src/repository_tools.rs:595-616 | The back-up loop finds the specified cut |
| ToolResults.BoundKeepsMost | crates/mentat-analysis/src/repository_tools.rs:595-616 | The longest prefix of whole characters of at most 65536 bytes, at most three bytes given up, the dropped bytes noted exactly |
| ToolJson.PlaceholderCovers | crates/mentat-analysis/src/repository_tools.rs:204-215 | The size measured with the ten-digit placeholder bounds the real one |
| RepositoryTools.ListTree | crates/mentat-analysis/src/repository_tools.rs:219-268 | The files whose components begin with the root's and go at most the clamped depth below it, in order, shown up to the clamped limit; the omission counts exactly the others |
| RepositoryTools.SearchPaths | crates/mentat-analysis/src/repository_tools.rs:270-308 | The files whose shown path holds the query, case aside, in order, shown up to the clamped limit; the omission counts exactly the others |
| RepositoryTools.SearchText | crates/mentat-analysis/src/repository_tools.rs:310-414 | The loops over files and lines, with their early ends (enough found, 127 notes, cancelled, changed body), against the specification; every reference names its line, file and hash with the redacted excerpt |
| RepositoryTools.HitsExactly | crates/mentat-analysis/src/repository_tools.rs:325-394 | A line is a hit of some files if and only if it stands, under its own number, in one of them that is text, passes the filter, is at most 64 KiB and can be read, and holds the query, case aside |
| RepositoryTools.FoundIsEligible | crates/mentat-analysis/src/repository_tools.rs:310-414 | Every reference of a successful search names such a line of the snapshot, by file, number and hash, with its redacted excerpt; there are no more than the clamped limit |
| RepositoryTools.SearchFails | crates/mentat-analysis/src/repository_tools.rs:325-380 | A search fails at a file before which it was cancelled, or whose body no longer hashes to what the scan recorded |
| RepositoryTools.SearchReports | crates/mentat-analysis/src/repository_tools.rs:325-394 | A search that succeeds reports the first matching lines, up to its limit, of some first files, all unchanged since the scan; files it should have searched and did not are noted one by one, those behind are counted unless it had found enough |
| RepositoryTools.NothingIsMissed | crates/mentat-analysis/src/repository_tools.rs:310-414 | At most the limit is reported; a search that ends below it and counts no rest reports every matching line of every file it should look at, or notes the file |
| RepositoryTools.SearchPanicsExactly | crates/mentat-analysis/src/repository_tools.rs:395-414 | A text search ends in the panic of the JSON macro if and only if it reports a line of a file whose name is outside UTF-8 |
| RepositoryTools.PrintableNeverPanics | crates/mentat-analysis/src/repository_tools.rs:395-414 | On a snapshot in which every file the search may look at has a name in UTF-8, no search panics, whatever the bodies hold |
| RepositoryTools.UnprintablePanics | crates/mentat-analysis/src/repository_tools.rs:395-414 | A search that runs to its end panics as soon as a searched file named outside UTF-8 holds a matching line |
| RepositoryTools.MetadataNeverPanics | crates/mentat-analysis/src/repository_tools.rs:460-487 | Asked for by a path in UTF-8, the metadata tool never meets a name it cannot print |
| RepositoryTools.ReadFileLines | crates/mentat-analysis/src/repository_tools.rs:416-458 | Succeeds if and only if the path is inside, the range is of at most 400 lines, and the first file listed there is text, unchanged and long enough; then returns the lines asked for, cut to the file, joined; its reference names them by number, file and hash; the excerpt is the redacted text cut to 512 characters; otherwise an error with its cause |
| RepositoryTools.JoinedReadsBack | crates/mentat-analysis/src/repository_tools.rs:447-456 | Joined lines read back as the lines selected if and only if the last is not empty and no earlier one ends in a carriage return |
| ScanTree.ScanFiles | crates/mentat-repository/src/session.rs:167-275 | The walk loop computes the specified books, up to the first cancellation seen |
| ScanTree.RecordedExactly | crates/mentat-repository/src/session.rs:219-268 | A regular file is recorded if and only if it fits every limit and can be read, the reader giving up past 10 MiB and a byte budget of 2^64-1 being no limit at all; its preview is kept exactly when all previews still come to at most 8 MiB; otherwise it is omitted for the first limit it breaks |
| ScanTree.NothingIsLost | crates/mentat-repository/src/session.rs:184-268 | For any order and limits, records and omissions together name exactly what had to be accounted for, as multisets |
| ScanTree.EachFileInOnePlace | crates/mentat-repository/src/session.rs:184-268 | A file met once is in exactly one record or one omission |
| ScanTree.LimitsHold | crates/mentat-repository/src/session.rs:244-259 | At most `max_files` records and 8 MiB of previews |
| ScanTree.BytesStayWithinBudget | crates/mentat-repository/src/session.rs:228-260 | On an unchanging tree recorded sizes stay within the total budget, the single-file limit and the reader's 10 MiB, for every byte budget below 2^64-1, and at 2^64-1 when file count times the largest file that can be recorded stays within it |
| ScanTree.BudgetHoldsExactly | crates/mentat-repository/src/session.rs:228-260 | For 64-bit limits: the recorded sizes of every tree (no file twice, none changing) stay within the byte budget if and only if the budget is below 2^64-1 or the file count times the smaller of single-file limit and 10 MiB stays within it |
| ScanTree.FullRangeHoldsExactly | crates/mentat-repository/src/scanner.rs:181-213 | With the budget 2^64-1 and files of any size allowed, the budget holds if and only if fewer than 1759218604442 files may be recorded |
| ScanTree.CreateSnapshot | crates/mentat-repository/src/session.rs:120-152 | The snapshot of an outcome, against its specification, its byte count a 64-bit sum |
| ScanTree.ReadyExactlyWhenWhole | crates/mentat-repository/src/session.rs:61-152 | Ready if and only if the scan was not cancelled and everything accountable was recorded |
| ScanTree.DigestForgetsWalkOrder | crates/mentat-repository/src/session.rs:120-144 | The tree digest depends on the files, not on the order the walk met them in |

## Left out

- AgentLoop.RunBounded: at the limit 65535 its bound on executed calls asks that no requested list is longer than that, which WiredTurn.Run has from the adapters.
- GeminiRound.ChunkIndependence: for responses of up to one MiB, which no cut makes trip a guard; EveryCutReadsAll is the half that holds of any length.
- ScanTree.BytesStayWithinBudget: asks for bounding limits; BudgetHoldsExactly says that under all others some tree exceeds the budget. Sums of sizes wrap, as in a release build.
- PacketSeal.SealsExactly: for paths spelled in UTF-8; PreImageShowsExactly covers all paths through what is shown of them.
- Citations.ValidateCitations: returns the new bundle where the source edits it in place; aliasing of the bundle is not modelled.
- SseRound.ScriptIsPlayed: for responses of up to one MiB whose chunks have the shape of the protocol; whatever else arrives is read as the incremental specification says. GeminiRound.ScriptIsPlayed likewise.
- AgentLoop.RunBounded: the request, trace and event list are values threaded through the loop, not objects; the event sink is the returned list.
- ReceiptProtocol.ReceiptStore.CompareAndSetBatch: takes the database transaction as atomic; a failing disk in the middle of it is not modelled.
- TurnStore: SQL text, schema migrations, foreign-key cascades and conversation deletion; tables are maps and a transaction is all or nothing. Inserts that would break a key are errors.
- Assembly: the relevance scores are given; keyword matching and the text of the context are not modelled.
- ToolResults.Execute: tool arguments arrive as the bytes of the decoded characters; the step between the two is not modelled.
- ReceiptProtocol: a row holds the status and the body digest of a receipt, and whether its seal is admitted is a parameter; ToolReceiptSeal models the seal.
- AgentWire: the tool definitions and model settings of the bodies; the messages are.
- Paths on Windows: components, separators and prefixes follow Unix. Packet paths are normal relative paths.
- ProviderBinding: hosts are lower-cased as ASCII, which is what the URL library yields for HTTP addresses.
- `infer_stream`, model discovery, health checks, HTTP, TLS, timeouts and retries: I/O over libraries.
- The local mock backend, slash workflows, language detection, persona texts and the user interface: presentation or plain tables.
- Reading a packet's files, hashing them and the sensitive-name filter: inputs of the assembly.
- Concurrent use of one storage object: its mutex makes operations a sequence, which is how runs are modelled.

# Ralph orchestrator: a verified model

Ralph drives coding agents. This project models the parts of it where state, concurrency and incremental
processing meet, and proves what they guarantee over every input, every chunking and every interleaving.

**Terminals** (`AcpProtocol`, `AcpInvariant`, `AcpRuns`, `AcpProgress`, `AcpAnswers`,
`AcpClient`). Any number of concurrent
`wait_for_terminal_exit`, `release_terminal` and `kill_terminal_command` calls share terminals. Everything runs on one
thread, so the code between two suspension points is one atomic step, and any call may be cancelled at any suspension
point, which runs the destructor of its guard. `AcpProtocol` is the transition system; `AcpClient` has the same calls
as objects whose fields are taken, set and cleared, each method proved to be the corresponding step. Processes exit,
waiting may fail and readers finish at arbitrary moments.

**Terminal output** (`Utf8`, `Utf8Text`, `TailBuffer`). The bounded byte buffer and its rendering as UTF-8 (RFC 3629, sections 3
and 4), against a buffer that keeps everything.

**Tool schemas** (`SchemaTrim`, `SchemaMeaning`, `SchemaPointer`). Trimming a schema to one definition and what it
needs, against the unfolding of references (JSON Schema Core 2020-12, sections 8.2.3.1 and 8.2.4) and against JSON
Pointer (RFC 6901).

**Agent streams** (`TextLines`, `LineStream`, `Handler`, `PiFamily`, `PiStream`, `Copilot`, `CopilotWire`,
`CopilotPty`, `TuiStream`, `ClaudeUsage`). Bytes arrive in arbitrary chunks; line buffers, accumulators and finalizers work incrementally. Each is
compared with a batch form over the whole stream.

**Idempotent requests** (`RpcErrors`, `Idempotency`, `IdempotencyRuns`, `RpcReplay`). Checking a key and storing its
response are separate critical sections with an arbitrary dispatch between them. `IdempotencyRuns` lets requests
interleave freely; `RpcReplay` executes whole requests and replays stored envelopes.

**Two list and file algorithms** (`CodexArgs`, `EventTail`, `EventTailRuns`, `EventTailGrowth`). Reconciling the codex flags, and tailing
the events file while it is appended to, switched, truncated or rewritten.

`Wrappers`, `Sequences`, `Words` and `Json` hold the optional value, facts about sequences, machine words and JSON
values.

## Where the code does less than one would expect

Each of these is kept as the code has it; a lemma gives the exact condition or a concrete run.

- A release whose `child.wait()` fails drops the child without a status. Cancelled then, it strands the terminal;
  finished, it removes it silently (`AcpProgress.StrandingHappens`, `AcpProgress.SilentRemovalHappens`). Nothing else
  loses a status (`AcpProgress.LostOnlyByFailedRelease`).
- A kill whose `child.wait()` fails publishes a placeholder that the system never reported
  (`AcpProgress.PlaceholderHappens`); every other published status is the reported one (`AcpRuns.PublishedIsGenuine`).
- Trimming changes the meaning of a schema exactly when nothing is kept, the inlined definition brings its own
  `$defs`, and one of its dangling references matches a name in there (`SchemaMeaning.TrimmingPreservesMeaning`,
  `SchemaMeaning.CaptureHappens`).
- It keeps definitions in vain exactly when the inlined definition refers, from inside its own `$schema` or `$defs`
  which are overwritten, to a defined name that its other references do not lead to
  (`SchemaMeaning.EmittedIsMinimalIff`, `SchemaMeaning.NestedDefsKeepTooMuch`).
- A `$ref` that points inside a definition is not followed: it still resolves exactly when that definition is kept for
  another reason (`SchemaPointer.PointerSurvivesIff`, `SchemaPointer.NestedPointersAreLost`).
- Characters are lost on the PTY, and kept by the CLI, exactly when some terminal read is not text on its own
  (`LineStream.TextSurvivesIff`, `LineStream.CutCharacterIsLost`).
- A check lets a request through exactly when every response stored for its key has expired; requests still under way
  do not hold it back, so overlapping requests with one key can both be dispatched
  (`IdempotencyRuns.AdmittedIffAllExpired`, `IdempotencyRuns.OverlappingRequestsBothDispatch`).
- The events tailer hands out each line once exactly when no reading poll but the last saw the file grow between its
  stat and its read (`EventTailGrowth.EachLineOnceIffNoEarlyGrowth`). It hands out a line in halves when it polls in
  the middle of it, and panics when an unnoticed rewrite leaves its offset inside a character
  (`EventTailRuns.CutLineIsDeliveredInHalves`, `EventTailRuns.UnnoticedRewritePanics`). Its doc comment promises
  complete lines only; the code hands out an unfinished last line too, and the model follows the code.
- `finalize` says it falls back to the last turn's text only when no delta arrived; the code does so whenever the
  deltas are blank, and the model follows the code.
- The last insertion of `--yolo` in `reconcile_codex_args` is never reached (asserted in
  `CodexArgs.CliBackend.ReconcileCodexArgs`).

## Model

| member | source | states |
|---|---|---|
| AcpClient.Terminal.constructor | crates/ralph-adapters/src/acp_executor.rs:421-435 | a new terminal starts with a child, a reader and no status |
| AcpClient.Terminal.ClearPidAfterCleanup | crates/ralph-adapters/src/acp_executor.rs:244-256 | only the pid that was cleaned up is cleared, and only while the terminal is mapped |
| AcpClient.PendingTerminalWait.Drop | crates/ralph-adapters/src/acp_executor.rs:84-112 | the destructor hands back what the unpublished entry lacks, clears the flag, and kills or aborts exactly the rest |
| AcpClient.PendingTerminalWait.DrainReader | crates/ralph-adapters/src/acp_executor.rs:187-200 | afterwards the reader is gone, and the terminal drained if there was one |
| AcpClient.Call.CancelCall | crates/ralph-adapters/src/acp_executor.rs:84-112 | a cancelled call runs the destructor exactly when it owns the terminal |
| AcpClient.Call.PlanWait | crates/ralph-adapters/src/acp_executor.rs:497-561 | the choice of a wait between done, finalize, await the child and await another call is the transition system's |
| AcpClient.Call.StepWait | crates/ralph-adapters/src/acp_executor.rs:563-646 | every atomic step of a wait is the transition system's |
| AcpClient.Call.PlanRelease | crates/ralph-adapters/src/acp_executor.rs:673-708 | the choice of a release is the transition system's |
| AcpClient.Call.StepRelease | crates/ralph-adapters/src/acp_executor.rs:710-759 | every atomic step of a release is the transition system's |
| AcpClient.Call.PlanKill | crates/ralph-adapters/src/acp_executor.rs:784-810 | the choice of a kill is the transition system's |
| AcpClient.Call.StepKill | crates/ralph-adapters/src/acp_executor.rs:812-880 | every atomic step of a kill is the transition system's |
| AcpInvariant.WaitKeeps | crates/ralph-adapters/src/acp_executor.rs:467-648 | no step of a wait breaks the invariant of its terminal, of itself, or of any other call's view of the terminal |
| AcpInvariant.ReleaseKeeps | crates/ralph-adapters/src/acp_executor.rs:650-761 | the same of a release |
| AcpInvariant.KillKeeps | crates/ralph-adapters/src/acp_executor.rs:763-881 | the same of a kill |
| AcpInvariant.CancelKeeps | crates/ralph-adapters/src/acp_executor.rs:84-112 | the same of a cancellation at any suspension point |
| AcpInvariant.StepKeepsInv | crates/ralph-adapters/src/acp_executor.rs:467-881 | every step of any call, any cancellation and any process exit keeps the invariant of the whole client |
| AcpRuns.CleanupMeansOneOwner | crates/ralph-adapters/src/acp_executor.rs:512-560 | in every reachable state the cleanup flag is set exactly when one live call owns the terminal, and never two |
| AcpRuns.ReaderInOnePlace | crates/ralph-adapters/src/acp_executor.rs:687-707 | until a status is published the reader is in exactly one place, the entry or the owner's guard; afterwards nowhere |
| AcpRuns.ChildInOnePlace | crates/ralph-adapters/src/acp_executor.rs:528-557 | the child is in exactly one place until it is reaped or a failed release dropped it |
| AcpRuns.CancelHandsBack | crates/ralph-adapters/src/acp_executor.rs:84-112 | cancelling an owner at any suspension point restores exactly its handles, clears the flag, kills nothing and leaves no owner |
| AcpRuns.StrandedIffReleaseLostTheStatus | crates/ralph-adapters/src/acp_executor.rs:512-560 | an idle unpublished terminal has its reader and either a child or a pending status; neither exactly when a release lost the status |
| AcpRuns.WaitSleepsIffOwnedOrStranded | crates/ralph-adapters/src/acp_executor.rs:528-573 | a wait goes to sleep exactly while another call owns the terminal or the terminal is stranded |
| AcpRuns.ReleaseWithoutOwnerMakesProgress | crates/ralph-adapters/src/acp_executor.rs:687-717 | a release that finds no owner never sleeps: it removes a published terminal and takes over an unpublished one, so the arm at line 695 is unreachable |
| AcpRuns.RunMovesForward | crates/ralph-adapters/src/acp_executor.rs:594-600 | over any run a status once written never changes and a removed id never comes back |
| AcpRuns.ReturnedStays | crates/ralph-adapters/src/acp_executor.rs:600-600 | what a call returned never changes |
| AcpRuns.PublishedIsGenuine | crates/ralph-adapters/src/acp_executor.rs:631-640 | a status is published after the reader was drained; it equals what the system reported if and only if no kill failed to wait, or the report happens to be the placeholder |
| AcpRuns.KillOnlySignalsIffOwnedOrStranded | crates/ralph-adapters/src/acp_executor.rs:792-809 | a kill that finds its terminal only signals exactly while another call owns it or it is stranded, the arm at line 807 |
| AcpRuns.WaitersAgree | crates/ralph-adapters/src/acp_executor.rs:564-573 | any two waits that ever succeed on a terminal return the one published status |
| AcpRuns.SleeperGetsTheStatus | crates/ralph-adapters/src/acp_executor.rs:565-573 | a sleeping wait gets the status even if a release removes the entry meanwhile, and "unknown terminal" exactly when the status was lost |
| AcpRuns.RemovedIffPublishedOrLost | crates/ralph-adapters/src/acp_executor.rs:749-757 | every removal follows publication except exactly those of a release that lost the status |
| AcpRuns.PublishedEntryIsClean | crates/ralph-adapters/src/acp_executor.rs:594-600 | a mapped terminal with a published status has no pid, no handle and no pending release |
| AcpRuns.ReleaseOkMeansGone | crates/ralph-adapters/src/acp_executor.rs:673-717 | a release returns Ok only once the entry is gone, and it stays gone |
| AcpProgress.OwnerPublishes | crates/ralph-adapters/src/acp_executor.rs:574-646 | left alone after the child exited, an owner publishes within three polls |
| AcpProgress.StatusAlwaysInReach | crates/ralph-adapters/src/acp_executor.rs:497-646 | from every reachable state a status that was not lost can be published within five steps |
| AcpProgress.LostOnlyByFailedRelease | crates/ralph-adapters/src/acp_executor.rs:737-748 | exactly one kind of step loses a status: the failed wait of a release that owns the child |
| AcpProgress.LostForever | crates/ralph-adapters/src/acp_executor.rs:737-757 | once lost, no status is ever published and no wait ever succeeds |
| AcpProgress.StrandingHappens | crates/ralph-adapters/src/acp_executor.rs:737-748 | a run that strands a terminal |
| AcpProgress.SilentRemovalHappens | crates/ralph-adapters/src/acp_executor.rs:749-757 | a run that removes a terminal without any status |
| AcpProgress.PlaceholderHappens | crates/ralph-adapters/src/acp_executor.rs:861-871 | a run in which a kill publishes a status the system never reported |
| AcpAnswers.WaitAnswers | crates/ralph-adapters/src/acp_executor.rs:497-646 | when a wait returns and with what: the published status, "unknown terminal" or "wait failed", in every reachable state |
| AcpAnswers.ReleaseAnswers | crates/ralph-adapters/src/acp_executor.rs:673-757 | when a release returns: Ok, or "unknown terminal" exactly when its first look found none |
| AcpAnswers.KillAnswers | crates/ralph-adapters/src/acp_executor.rs:784-880 | when a kill returns: Ok, or "unknown terminal" exactly when its first look found none |
| AcpAnswers.TakeoverBegins | crates/ralph-adapters/src/acp_executor.rs:506-557 | how a call becomes the owner: a wait looks once whether the child exited and else awaits it, anything else begins by signalling with the terminal's pid |
| AcpAnswers.CancelElsewhere | crates/ralph-adapters/src/acp_executor.rs:84-112 | cancelling a call that owns nothing leaves every terminal as it is |
| AcpAnswers.DropConservesHandles | crates/ralph-adapters/src/acp_executor.rs:84-112 | the destructor neither loses nor doubles a handle: each goes back, or is killed or aborted |
| AcpAnswers.OwnerLeaves | crates/ralph-adapters/src/acp_executor.rs:593-599 | an owner's last poll publishes the pending status, and the entry goes exactly when a release asked |
| AcpAnswers.DrainedOnlyByDraining | crates/ralph-adapters/src/acp_executor.rs:187-200 | the reader counts as drained after the poll that finishes draining it, and after no other step |
| AcpAnswers.DrainingPublishes | crates/ralph-adapters/src/acp_executor.rs:858-876 | a kill that waited always has a status to publish: the branch that drains the reader without publishing is never reached |
| AcpAnswers.PlaceholderOnlyByFailedKill | crates/ralph-adapters/src/acp_executor.rs:852-865 | only a kill whose own wait failed stands behind a placeholder |
| AcpAnswers.PidClearedOnlyAfterSignalling | crates/ralph-adapters/src/acp_executor.rs:591-592 | a mapped terminal keeps its pid until an owner has signalled its process group |
| AcpAnswers.CreatedHoldsAll | crates/ralph-adapters/src/acp_executor.rs:421-435 | a new terminal has its child, its pid and its reader, and nothing pending |
| AcpAnswers.RemovedOnlyOnRequest | crates/ralph-adapters/src/acp_executor.rs:685-717 | a terminal leaves the map only because some release found it there, and once one has, publishing removes it |
| Utf8.ValidConcat | crates/ralph-adapters/src/acp_executor.rs:124-129 | well-formed text (RFC 3629) followed by bytes is well formed exactly when the bytes are |
| Utf8.ValidSuffixIffBoundary | crates/ralph-adapters/src/acp_executor.rs:132-136 | a suffix of well-formed text is well formed exactly from a character boundary on |
| Utf8.ValidUpToIsValid | crates/ralph-adapters/src/acp_executor.rs:126-128 | the position the decoder reports ends the longest well-formed prefix |
| Utf8.CutIffProperPrefix | crates/ralph-adapters/src/acp_executor.rs:126-126 | an error without a length means exactly a proper prefix of a character |
| Utf8.LossyIsValid | crates/ralph-adapters/src/acp_executor.rs:131-131 | lossy decoding always yields well-formed text and leaves well-formed text alone |
| Utf8.LossyReplacesMaximalSubparts | crates/ralph-adapters/src/acp_executor.rs:131-131 | lossy decoding keeps text and puts one replacement for each longest cut character, or else for one byte |
| Utf8.MaximalSubpartExists | crates/ralph-adapters/src/acp_executor.rs:131-131 | wherever no character begins there is exactly such a part |
| Utf8Text.EncodedDecodes | crates/ralph-adapters/src/acp_executor.rs:124-125 | every Unicode scalar value, laid out as RFC 3629 section 3 says, is one well-formed character that decodes to it |
| Utf8Text.DecodedEncodes | crates/ralph-adapters/src/acp_executor.rs:124-125 | every well-formed character is laid out that way |
| Utf8Text.ValidIffEncoding | crates/ralph-adapters/src/acp_executor.rs:124-125 | bytes are well formed and decode to a text if and only if they are its encoding |
| TailBuffer.RenderUtf8SuffixWithByteLimit | crates/ralph-adapters/src/acp_executor.rs:114-139 | the loops compute the rendering that the lemmas below speak of |
| TailBuffer.RenderIsValidAndBounded | crates/ralph-adapters/src/acp_executor.rs:114-139 | for arbitrary bytes the answer is well-formed text of at most the limit |
| TailBuffer.PrefixIffCutTail | crates/ralph-adapters/src/acp_executor.rs:126-129 | the prefixes of well-formed text are well-formed text and at most one character cut short |
| TailBuffer.RenderIsLongestTail | crates/ralph-adapters/src/acp_executor.rs:114-129 | for every prefix of well-formed text the answer is the longest run of whole characters before the cut one that fits with it; nothing is replaced |
| TailBuffer.LongestTailIsUnique | crates/ralph-adapters/src/acp_executor.rs:114-129 | that description has one answer only |
| TailBuffer.RenderOfIllFormed | crates/ralph-adapters/src/acp_executor.rs:130-137 | bytes that do not begin well-formed text are decoded with replacements, and the answer is the longest run of whole characters of that which fits |
| TailBuffer.RenderLooksAtTheEnd | crates/ralph-adapters/src/acp_executor.rs:119-122 | only the last bytes up to the limit matter |
| TailBuffer.AppendRefines | crates/ralph-adapters/src/acp_executor.rs:141-164 | one append and trim of the retained end is the retained end of the longer stream |
| TailBuffer.ChunksRefineStream | crates/ralph-adapters/src/acp_executor.rs:141-164 | after any reads the buffer and its flag are those of the whole stream |
| TailBuffer.BufferHoldsLastBytes | crates/ralph-adapters/src/acp_executor.rs:141-164 | the buffer holds exactly the last bytes of the stream, three more than the limit; none for limit zero |
| TailBuffer.AnswerRefinesStream | crates/ralph-adapters/src/acp_executor.rs:451-461 | for every stream, chunking and limit the reported text is the rendering of the whole stream, and truncated exactly when the stream exceeds the limit |
| TailBuffer.TerminalOutput.AppendTerminalOutput | crates/ralph-adapters/src/acp_executor.rs:141-164 | the field updates keep the buffer equal to the fold over all reads |
| TailBuffer.TerminalOutput.ReadTerminalOutput | crates/ralph-adapters/src/acp_executor.rs:440-465 | the answer is stated over the whole stream, not the buffer |
| SchemaTrim.CollectRefs | crates/ralph-api/src/mcp.rs:634-653 | the list holds exactly the references anywhere inside the value |
| SchemaTrim.CollectNeededDefs | crates/ralph-api/src/mcp.rs:661-691 | the worklist ends on every graph, cyclic or not, with exactly the names reachable from the starting reference |
| SchemaTrim.IsReferencedBack | crates/ralph-api/src/mcp.rs:718-736 | the inlined definition counts as referenced exactly when a reachable one names it |
| SchemaTrim.SchemaRefObject | crates/ralph-api/src/mcp.rs:693-749 | the three errors, and otherwise the inlined definition with its defaults and exactly the kept definitions |
| SchemaMeaning.EmittedNamesItsDialect | crates/ralph-api/src/mcp.rs:738-744 | the emitted schema always has a `$schema`, the root's or else the default |
| SchemaMeaning.EmittedKeys | crates/ralph-api/src/mcp.rs:704-748 | every other key is the inlined definition's, and `$defs` is written exactly when some are kept |
| SchemaMeaning.AgreeingTablesUnfoldAlike | crates/ralph-api/src/mcp.rs:710-716 | tables that agree on a closed set of names give the same unfolding at every depth |
| SchemaMeaning.TrimmingPreservesMeaning | crates/ralph-api/src/mcp.rs:693-749 | the emitted schema unfolds like the original definition at every depth if and only if no dangling reference is captured |
| SchemaMeaning.CaptureChangesMeaning | crates/ralph-api/src/mcp.rs:745-747 | a captured reference shows at depth one |
| SchemaMeaning.CaptureHappens | crates/ralph-api/src/mcp.rs:745-747 | a schema whose dangling reference is captured |
| SchemaMeaning.EmittedIsClosed | crates/ralph-api/src/mcp.rs:710-747 | when everything the definition leads to exists, every reference of the emitted schema resolves in it |
| SchemaMeaning.ClosedRootIsClosedFrom | crates/ralph-api/src/mcp.rs:661-691 | a root whose every reference resolves meets that condition for each definition |
| SchemaMeaning.EmittedIsMinimalIff | crates/ralph-api/src/mcp.rs:710-736 | every kept definition is reachable from the emitted body through kept definitions if and only if every defined name the inlined definition refers to can be reached from its references outside `$schema` and `$defs` |
| SchemaMeaning.EmittedIsMinimal | crates/ralph-api/src/mcp.rs:710-736 | so it is when the definition has no `$schema` or `$defs` of its own |
| SchemaMeaning.NestedDefsKeepTooMuch | crates/ralph-api/src/mcp.rs:718-747 | a schema for which a definition nobody needs stays |
| SchemaPointer.PointerLeadsAlong | crates/ralph-api/src/mcp.rs:656-658 | JSON Pointer as references mean it: the pointer written from any path, names escaped, resolves to the value at the end of the path |
| SchemaPointer.PlainRefsResolveAlike | crates/ralph-api/src/mcp.rs:656-658 | on names that need no escaping the prefix reading is JSON Pointer's, before and after trimming |
| SchemaPointer.PointerAfterTrimming | crates/ralph-api/src/mcp.rs:734-747 | where any pointer into the definitions leads after trimming |
| SchemaPointer.PointerSurvivesIff | crates/ralph-api/src/mcp.rs:710-747 | a pointer that resolves, to a definition or into one, resolves alike after trimming if and only if the definition it goes through is kept; when nothing is kept, also if definitions nested in the inlined one hold the same value |
| SchemaPointer.NestedPointersAreLost | crates/ralph-api/src/mcp.rs:656-691 | such a pointer alone does not keep the definition it goes through |
| SchemaPointer.TrimmingPreservesPointerMeaning | crates/ralph-api/src/mcp.rs:693-749 | with plain whole-definition references, trimming preserves the unfolding of JSON Pointers at every depth if and only if nothing is captured |
| TextLines.LinesOfConcat | crates/ralph-adapters/src/pty_executor.rs:871-878 | what was left over joins what comes next, for every split of the text |
| TextLines.LinesOfPartsIff | crates/ralph-api/src/event_watcher.rs:141-144 | the lines of two parts are the lines of the whole if and only if the first ends a line or the second is empty |
| TextLines.LinesMakeText | crates/ralph-adapters/src/pty_executor.rs:873-875 | the complete lines and the rest are the text, cut at every newline |
| TextLines.LineEnds | crates/ralph-api/src/event_watcher.rs:141-144 | a line ends in "\n", "\r\n" or with the text, and its end is not part of it |
| TextLines.TrimOfPadded | crates/ralph-adapters/src/pi_family.rs:154-154 | trimming takes off the white space around and nothing else |
| TextLines.BlankIffAllSpace | crates/ralph-adapters/src/pi_family.rs:255-257 | a line is skipped as blank exactly when it is all white space |
| LineStream.CliReadsTheLines | crates/ralph-adapters/src/cli_executor.rs:394-420 | line-wise reading yields exactly the lines of the text, and fails exactly when the bytes are not text |
| LineStream.FedIsLinesOfText | crates/ralph-adapters/src/pty_executor.rs:869-915 | each line of the text that arrived is fed once and in order, however it was chunked |
| LineStream.ValidChunksJoin | crates/ralph-adapters/src/pty_executor.rs:831-831 | when every chunk is text on its own nothing is lost |
| LineStream.SoundChunksSurvive | crates/ralph-adapters/src/pty_executor.rs:831-831 | of any chunks exactly those that are text on their own are kept, whole |
| LineStream.PtyAndCliReadAlike | crates/ralph-adapters/src/pty_executor.rs:869-915 | then the PTY and the CLI see the same lines up to surrounding white space |
| LineStream.TextSurvivesIff | crates/ralph-adapters/src/pty_executor.rs:831-831 | of a stream that is text, all of it survives if and only if every chunk is text on its own; any other chunking loses characters |
| LineStream.CutCharacterIsLost | crates/ralph-adapters/src/pty_executor.rs:831-831 | a character cut across two chunks that the CLI reads and the PTY loses |
| PiFamily.FinalizeIsIdempotent | crates/ralph-adapters/src/pi_family.rs:278-342 | finalizing twice changes nothing |
| PiFamily.RunAccounts | crates/ralph-adapters/src/pi_family.rs:254-267 | after any lines every field is the batch value over the events on them: wrapped sums, peak, last names, last turn, error flag, deltas |
| PiFamily.FinalTextOfRun | crates/ralph-adapters/src/pi_family.rs:278-295 | the text is the concatenated deltas, or the last turn's text blocks exactly when those are blank |
| PiFamily.ReportedInputOfRun | crates/ralph-adapters/src/pi_family.rs:323-335 | the reported input is the largest turn, and within true totals when those fit in 64 bits |
| PiFamily.VerdictOfRun | crates/ralph-adapters/src/pi_family.rs:300-321 | a successful process is a mismatch exactly when nothing was recognized or no text came on a turn that was not tool use |
| PiFamily.SummaryOfRun | crates/ralph-adapters/src/pi_family.rs:305-341 | everything the summary of a run reports, over its events: turns and tokens, the error flag, and which mismatch |
| PiFamily.JoinedTextsAreBlockText | crates/ralph-adapters/src/pi_family.rs:286-294 | recovered text is the text of the blocks in order |
| PiFamily.RunIsVoiced | crates/ralph-adapters/src/pi_family.rs:375-458 | over a run the handler is told the text of the events in order, thinking only when it is wanted |
| PiFamily.ToldIsExtracted | crates/ralph-adapters/src/pi_family.rs:375-458 | without thinking, the text told is the text extracted |
| PiFamily.ToolsAreTold | crates/ralph-adapters/src/pi_family.rs:405-430 | a tool is told when it starts, and when it ends as an error exactly when its flag says so |
| PiFamily.TrimmedLinesSuffice | crates/ralph-adapters/src/pi_family.rs:153-160 | lines matter only up to surrounding white space |
| PiStream.PiFamilySession.OnLine | crates/ralph-adapters/src/pi_family.rs:254-267 | the field updates for one line are the fold's, and the handler is told exactly what the line shows |
| PiStream.PiFamilySession.OnEvent | crates/ralph-adapters/src/pi_family.rs:375-458 | the field updates and callbacks of one event |
| PiStream.PiFamilySession.Close | crates/ralph-adapters/src/pi_family.rs:278-342 | finalization of the fields is the specification's |
| PiStream.PtyPiStream.OnData | crates/ralph-adapters/src/pty_executor.rs:869-879 | after any chunks the session and the handler have been through exactly the complete lines, and the buffer holds the rest |
| PiStream.PtyPiStream.OnEof | crates/ralph-adapters/src/pty_executor.rs:910-913 | the flush makes it all lines |
| PiStream.CliLoop | crates/ralph-adapters/src/cli_executor.rs:229-281 | however the two streams interleave, the session sees the standard output lines in order and the raw output keeps all |
| PiStream.OutputHoldsTheLines | crates/ralph-adapters/src/cli_executor.rs:256-273 | the raw output is the lines in the order they came, those of standard error marked, and nothing else |
| PiStream.PtyEqualsCli | crates/ralph-adapters/src/pty_executor.rs:869-915 | on chunks that are text, PTY and CLI end with the same state, text, counts and verdict |
| PiStream.PtyRunIsLinesOfSurvivingText | crates/ralph-adapters/src/pty_executor.rs:831-878 | in general the PTY run is the run on the text that survived chunking |
| ClaudeUsage.ClaudeSessionState.OnAssistant | crates/ralph-adapters/src/pty_executor.rs:1929-1941 | however long the session, the counters are the capped true maxima and the capped true output sum |
| ClaudeUsage.ExpectedPeaks | crates/ralph-adapters/src/pty_executor.rs:1929-1941 | each reported peak is exceeded by no turn and reached by one |
| Copilot.ExtractContentText | crates/ralph-adapters/src/copilot_stream.rs:522-553 | the loop over content items computes their concatenation, or nothing when it is empty |
| Copilot.ContentTextOfParts | crates/ralph-adapters/src/copilot_stream.rs:522-553 | the text of a list of items is the texts of its parts in order |
| Copilot.ContentTextOfOne | crates/ralph-adapters/src/copilot_stream.rs:522-553 | strings, items and objects with a text give that text |
| Copilot.ExtractAllText | crates/ralph-adapters/src/copilot_stream.rs:315-326 | the loop computes the extraction over all lines |
| Copilot.AppendedChunk | crates/ralph-adapters/src/copilot_stream.rs:329-334 | a message is appended whole and ended by a newline unless it ends in one |
| Copilot.ExtractedIsWholeLines | crates/ralph-adapters/src/copilot_stream.rs:315-334 | whatever the lines, the extracted text is whole lines: no message runs into the next |
| Copilot.CopilotStream.OnEvent | crates/ralph-adapters/src/copilot_stream.rs:337-412 | state, extracted text, callbacks and completion of one event |
| CopilotWire.WireReadsBack | crates/ralph-adapters/src/copilot_stream.rs:180-247 | every event is read back from the wire as it was written, an output standing in for a missing error message and an exit code beyond 32 bits counting as absent |
| CopilotWire.StreamReadsBack | crates/ralph-adapters/src/copilot_stream.rs:180-247 | every event of a stream is read, in order and once, whatever white space surrounds it and whatever blank or malformed lines are sent between |
| CopilotWire.StateOfRun | crates/ralph-adapters/src/copilot_stream.rs:344-377 | after any lines the state counts the turns that ended and knows exactly the messages that were streamed |
| CopilotWire.ResultReports | crates/ralph-adapters/src/copilot_stream.rs:392-410 | the result reports those turns, and an error exactly when the exit code is there and not zero |
| CopilotWire.TextIsTold | crates/ralph-adapters/src/copilot_stream.rs:344-377 | after any lines a delta is told unless it is empty, a streamed message only ends its line, any other message is told whole, and a turn's start or end tells nothing |
| CopilotWire.ToolsAreTold | crates/ralph-adapters/src/copilot_stream.rs:378-391 | a tool is told by its name and call, and its end as a result exactly when it succeeded |
| CopilotWire.DecimalReadsBack | crates/ralph-adapters/src/copilot_stream.rs:406-406 | the exit code in the message is the exit code |
| Copilot.StreamedIsExtracted | crates/ralph-adapters/src/copilot_stream.rs:315-367 | dispatching lines one by one accumulates the text that batch extraction yields, whatever deltas preceded each message |
| Copilot.LiveTextIsBatchText | crates/ralph-adapters/src/copilot_stream.rs:315-367 | so it is for the lines the PTY is fed, for every chunking; over the whole stream when every chunk is text on its own |
| CopilotPty.CopilotPtyStream.OnLine | crates/ralph-adapters/src/pty_executor.rs:1781-1789 | one line is parsed and its event dispatched, or nothing happens |
| CopilotPty.CopilotPtyStream.OnData | crates/ralph-adapters/src/pty_executor.rs:853-868 | after any chunks the stream has handled exactly the complete lines and the buffer holds the rest |
| CopilotPty.CopilotPtyStream.OnEof | crates/ralph-adapters/src/pty_executor.rs:901-909 | after the flush the text accumulated live equals batch extraction of the text that arrived, and of the whole stream when every chunk is text on its own |
| Copilot.ShownOfMessage | crates/ralph-adapters/src/copilot_stream.rs:344-367 | of a message the handler shows its deltas and a newline, or its content when nothing was streamed |
| Copilot.ShownOnceIffDeltasAddUp | crates/ralph-adapters/src/copilot_stream.rs:518-520 | a streamed message is shown exactly once if and only if its deltas concatenate to it |
| TuiStream.TuiStreamHandler.FreezeCurrentText | crates/ralph-adapters/src/stream_handler.rs:477-483 | freezing does not change what is shown |
| TuiStream.TuiStreamHandler.UpdateLines | crates/ralph-adapters/src/stream_handler.rs:490-515 | the redraw loop draws the frozen blocks and the unfinished text |
| TuiStream.TuiStreamHandler.AddNonTextLine | crates/ralph-adapters/src/stream_handler.rs:520-524 | adding a line keeps the blocks the coalescing of everything so far |
| TuiStream.TuiStreamHandler.OnTextCallback | crates/ralph-adapters/src/stream_handler.rs:528-535 | after the callback the screen is the batch rendering of the whole trace |
| TuiStream.TuiStreamHandler.OnToolCallCallback | crates/ralph-adapters/src/stream_handler.rs:537-553 | the same of a tool call |
| TuiStream.TuiStreamHandler.OnToolResultCallback | crates/ralph-adapters/src/stream_handler.rs:555-570 | the same of a tool result; an empty one changes nothing |
| TuiStream.TuiStreamHandler.OnErrorCallback | crates/ralph-adapters/src/stream_handler.rs:572-582 | the same of an error |
| TuiStream.TuiStreamHandler.OnCompleteCallback | crates/ralph-adapters/src/stream_handler.rs:584-600 | the same of the completion, which adds two lines |
| TuiStream.CoalescedIsMaximal | crates/ralph-adapters/src/stream_handler.rs:477-483 | coalescing leaves no two texts side by side and no empty text |
| TuiStream.FrozenTextsAreApart | crates/ralph-adapters/src/stream_handler.rs:477-524 | hence no two frozen text blocks are adjacent |
| TuiStream.ChunkingDoesNotShow | crates/ralph-adapters/src/stream_handler.rs:528-535 | splitting or joining text chunks anywhere in a trace never changes the screen |
| TuiStream.DrawConcat | crates/ralph-adapters/src/stream_handler.rs:490-515 | blocks are drawn in their order |
| TuiStream.CallbackGoesBelow | crates/ralph-adapters/src/stream_handler.rs:537-600 | tool calls, results, errors and completions appear below everything before them |
| TuiStream.TextGoesBelow | crates/ralph-adapters/src/stream_handler.rs:528-535 | so does text, joined to text that is being written |
| Idempotency.MakeKeyIsInjective | crates/ralph-api/src/idempotency.rs:51-53 | keys of methods without a colon never collide |
| Idempotency.MutatingMethodsHaveNoColon | crates/ralph-api/src/protocol.rs:69-100 | none of the mutating methods has one |
| Idempotency.InMemoryIdempotencyStore.Cleanup | crates/ralph-api/src/idempotency.rs:46-49 | exactly the entries past the time to live go |
| Idempotency.InMemoryIdempotencyStore.CheckKey | crates/ralph-api/src/idempotency.rs:57-72 | new, replay or conflict by what is left after cleaning |
| Idempotency.InMemoryIdempotencyStore.StoreResponse | crates/ralph-api/src/idempotency.rs:74-88 | cleans and overwrites the one key |
| IdempotencyRuns.StepKeepsInv | crates/ralph-api/src/idempotency.rs:56-88 | every step of any interleaving keeps the invariant of store and log |
| IdempotencyRuns.StoredKeyIsNotNew | crates/ralph-api/src/runtime.rs:367-415 | in every interleaving a stored key is not new again until more than its time to live has passed, and every replay was stored for that key and those parameters within it |
| IdempotencyRuns.DispatchesAreApart | crates/ralph-api/src/runtime.rs:367-415 | dispatches of one key by requests that do not overlap are more than the time to live apart |
| IdempotencyRuns.DispatchedOnce | crates/ralph-api/src/runtime.rs:395-397 | no request is dispatched twice |
| IdempotencyRuns.AdmittedIffAllExpired | crates/ralph-api/src/runtime.rs:367-392 | in every reachable state a check lets its request through if and only if every response ever stored for the key has outlived its time to live |
| IdempotencyRuns.OverlappingRequestsBothDispatch | crates/ralph-api/src/runtime.rs:367-397 | so overlapping requests with one key can both be dispatched |
| RpcErrors.FromContract | crates/ralph-api/src/errors.rs:53-76 | only the name of a code is ever taken for it |
| RpcErrors.NamesAreCodes | crates/ralph-api/src/errors.rs:29-76 | a string reads as a code if and only if it is that code's name |
| RpcErrors.NotFoundSaysSo | crates/ralph-api/src/errors.rs:209-230 | a code has status 404 if and only if its name ends in NOT_FOUND |
| RpcErrors.ConflictSaysSo | crates/ralph-api/src/errors.rs:209-230 | a code has status 409 if and only if its name ends in CONFLICT |
| RpcErrors.InvalidSaysSo | crates/ralph-api/src/errors.rs:209-230 | a code has status 400 if and only if its name starts or ends with INVALID |
| RpcErrors.SingleStatuses | crates/ralph-api/src/errors.rs:209-230 | which codes have the other statuses |
| RpcErrors.RetryableIffTransient | crates/ralph-api/src/errors.rs:101-117 | a new error is retryable if and only if its status is 408, 429 or 503 |
| RpcErrors.SuccessFields | crates/ralph-api/src/protocol.rs:217-226 | what a reader finds in the envelope of a value |
| RpcErrors.ErrorFields | crates/ralph-api/src/protocol.rs:228-237 | what a reader finds in the envelope of an error |
| RpcErrors.ErrorBodyFields | crates/ralph-api/src/errors.rs:199-206 | what a reader finds in the body of an error |
| RpcReplay.RpcRuntime.ExecuteRequest | crates/ralph-api/src/runtime.rs:345-418 | one request changes domain and store as specified, on every branch |
| RpcReplay.RpcRuntime.InvokeMethod | crates/ralph-api/src/runtime.rs:147-151 | the in-process answer, fresh or replayed |
| RpcReplay.ReplayRoundTrip | crates/ralph-api/src/runtime.rs:420-458 | storing any value or error as an envelope and replaying it gives back the same value, or the same code, message, retryability, details and status |
| RpcReplay.EntrySurvives | crates/ralph-api/src/idempotency.rs:57-88 | until its time to live has passed no sequence of later calls touches a stored entry |
| RpcReplay.RetryIsAnsweredFromTheStore | crates/ralph-api/src/runtime.rs:361-415 | a retry within the time to live never changes the domain, whatever was called in between: it gets the first answer, or a conflict when its parameters differ |
| RpcReplay.HttpRetryGetsTheSameResponse | crates/ralph-api/src/runtime.rs:176-193 | over HTTP the retry gets the first status and the first body but for its stamp |
| RpcReplay.DispatchedCallAnswers | crates/ralph-api/src/runtime.rs:395-417 | a call that is dispatched changes the domain and is answered as dispatch says; one that does not mutate leaves the store alone |
| RpcReplay.ErrorsAreAddressed | crates/ralph-api/src/runtime.rs:395-455 | every error carries the request identifier and method of the request that gets it |
| RpcReplay.RejectionsExplain | crates/ralph-api/src/runtime.rs:358-391 | a missing key is a bad request, a key reused with other parameters a conflict that names method and key |
| RpcReplay.UnreadableReplay | crates/ralph-api/src/runtime.rs:429-436 | a stored envelope with neither value nor error replays as an internal error |
| RpcReplay.HttpStatuses | crates/ralph-api/src/runtime.rs:176-193 | over HTTP a value is a success, an error has its own status and a replay the stored response |
| CodexArgs.Retain | crates/ralph-adapters/src/cli_backend.rs:937-937 | the loop keeps exactly the other arguments in order |
| CodexArgs.Collapse | crates/ralph-adapters/src/cli_backend.rs:950-959 | the loop keeps everything but the later occurrences of the flag, and tells whether there was one |
| CodexArgs.PlaceAfterExec | crates/ralph-adapters/src/cli_backend.rs:939-943 | the flag is inserted right after the first `exec`, or last |
| CodexArgs.CliBackend.ReconcileCodexArgs | crates/ralph-adapters/src/cli_backend.rs:932-968 | the edits in place yield the reconciled list |
| CodexArgs.CliBackend.ExtendArgs | crates/ralph-adapters/src/cli_backend.rs:138-141 | configured arguments are appended and only codex is reconciled |
| CodexArgs.ReconciledFlags | crates/ralph-adapters/src/cli_backend.rs:932-968 | the long flag always goes; one short flag and no `--full-auto` if and only if either bypass form was given; otherwise nothing changes |
| CodexArgs.ReconciledKeepsOthers | crates/ralph-adapters/src/cli_backend.rs:932-968 | all other arguments stay, in order |
| CodexArgs.NewFlagFollowsExec | crates/ralph-adapters/src/cli_backend.rs:938-944 | a short flag that had to be added stands right after the first `exec`, or last |
| CodexArgs.GivenFlagStays | crates/ralph-adapters/src/cli_backend.rs:947-959 | a short flag that was given stays where it first stood |
| CodexArgs.ReconcilingIsIdempotent | crates/ralph-adapters/src/cli_backend.rs:932-968 | reconciling twice is reconciling once |
| EventTail.PublishLines | crates/ralph-api/src/event_watcher.rs:96-106 | blank, unparseable and topicless lines are skipped, the rest published in order |
| EventTail.PublishedConcat | crates/ralph-api/src/event_watcher.rs:96-106 | publishing poll by poll is publishing at once |
| EventTail.PublishedIffCarried | crates/ralph-api/src/event_watcher.rs:96-106 | exactly the records of lines that are not blank, parse and have a topic are published |
| EventTail.PublishedInOrder | crates/ralph-api/src/event_watcher.rs:96-106 | one for each such line, in their order |
| EventTail.MarkerNames | crates/ralph-api/src/event_watcher.rs:109-116 | the marker names the file with or without white space around it |
| EventTail.FailedReadKeepsPlace | crates/ralph-api/src/event_watcher.rs:119-134 | a file that cannot be stat'd or read is tried again from the same place, or from its start once it shrank |
| EventTail.ShrunkWhileReading | crates/ralph-api/src/event_watcher.rs:133-146 | a file that shrank between stat and read hands out nothing and the stat'd length is believed |
| EventTail.EventWatcher.ReadLines | crates/ralph-api/src/event_watcher.rs:119-148 | offset and lines after one read, on every branch |
| EventTail.EventWatcher.PollOnce | crates/ralph-api/src/event_watcher.rs:62-107 | file, offset and published records after one poll, on every branch |
| EventTailRuns.TidyPollKeepsStep | crates/ralph-api/src/event_watcher.rs:62-148 | one poll of an orderly file keeps the watcher in step with it and catches up |
| EventTailRuns.TidyRunDeliversEachLineOnce | crates/ralph-api/src/event_watcher.rs:62-148 | after any run of such polls the lines handed out since the last switch or truncation are exactly those of the file, each once and in order |
| EventTailRuns.OnlyAppendedIsTidy | crates/ralph-api/src/event_watcher.rs:62-148 | files to which whole lines are appended between polls are orderly |
| EventTailRuns.AppendedLinesAreDeliveredOnce | crates/ralph-api/src/event_watcher.rs:62-148 | so every line of the active file is handed out once and in order |
| EventTailRuns.GrowthIsDeliveredTwice | crates/ralph-api/src/event_watcher.rs:120-146 | what a poll read beyond its stat is exactly what the next quiet poll hands out again |
| EventTailGrowth.EachLineOnceIffNoEarlyGrowth | crates/ralph-api/src/event_watcher.rs:119-148 | over any run of polls of a file that grows at any moment, each line is handed out once and in order if and only if no reading poll but the last saw growth between its stat and its read |
| EventTailRuns.CutLineIsDeliveredInHalves | crates/ralph-api/src/event_watcher.rs:134-146 | polling between two writes hands out the right lines if and only if the first ended a line or the second wrote nothing |
| EventTailRuns.UnnoticedRewritePanics | crates/ralph-api/src/event_watcher.rs:135-136 | a rewrite that does not shrink the file panics if and only if the old offset falls inside a character |

## Left out

- The operating system: spawning, signals, PTY allocation and timers. Exits, failed waits and the passing of time are arbitrary steps or parameters.
- Terminal identifiers are taken to be fresh, and a pid is taken to name one process; reuse of process identifiers is not modelled.
- Every suspension point of a terminal call is treated as a real one. Some waits finish at once in the program, so the model has more interleavings than it, never fewer.
- The map of terminals, and calls on different terminals, stay values; objects model one terminal and one call each, so aliasing through the map is not captured.
- The shutdown drain of the terminal map and the ACP handshake, which bypass the ownership of terminals on purpose.
- Parsing JSON lines into events, YAML, and JSON Schema validation are parameters or start from parsed values. Numbers in JSON values are integers.
- The interrupt, idle timeout and post-event deadline branches of the PTY and CLI loops; double control-C detection (`CtrlCState`), which is two branches.
- The PTY's error event, which ends the loop without the flush that end of file does.
- Cost totals and durations, which are floating point or clock values.
- Counters written with plain addition wrap, as in a release build; a debug build would panic instead.
- The text recovered on screen after finalization, which is tested for emptiness without trimming and so can differ from the extracted text.
- How lines look: markdown, colours, ANSI codes, truncation and tool previews are functions the TUI model never looks into.
- `dispatch` and the task, loop, planning, collection, config and preset domains: an arbitrary change of state with an arbitrary answer. Authorization and request validation happen before the model begins.
- The lock of the idempotency store being poisoned.
- Paging and lookup in the tool catalog: one clamp and one map access.
- Backend factories and argument filtering for interactive use: tables.
- Paths of events files are compared by the text of the marker, not component by component.
- The drain after the child's exit ignores a Copilot result that completes only there; the model of that branch keeps no completion.
- SchemaMeaning.TrimmingPreservesMeaning: references are those the code follows, `#/$defs/` and a name. `SchemaPointer.TrimmingPreservesPointerMeaning` has the same under JSON Pointer for plain whole-definition references, and `SchemaPointer.PointerSurvivesIff` says which other pointers survive; percent-encoded fragments are not decoded.

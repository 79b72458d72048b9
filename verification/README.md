# Verified core of the Rottweiler verification harness

Rottweiler's scripts supervise processes, redact evidence, watch terminals, follow
journals and check releases. This project models the stateful heart of those scripts in
Dafny and proves what they are for: over every input, every run and every interleaving.

- **Settlement protocol** (`Scope*`, `Owner`, `Nesting`, `SettlementObjects`):
  the pipe on which a wrapper announces the children it starts and settles, both of its
  ends, the owner that retires a process group, and owners nested to any depth.
- **Evidence redaction** (`Redactor*`): secrets cut anywhere across reads, and the bounded
  log and tail.
- **Terminal observer** (`Terminal*`): every escape sequence as a pure step, what its bytes do to
  each cell and to the cursor, the object whose rows are heap objects that each character edits
  in place, and theorems about whole streams.
- **Journal probe** (`Journal*`): budgeted reading of append-only files and the automaton
  that recognises a completed step.
- **Rust masker** (`Masker`, `RustTokens`), **chunked and event-stream decoding** (`Chunked`),
  **bounded size counters** (`Json*`), **impairment relay** (`Relay*`), **package installer**
  (`Installer`), **release contract** (`Release*`).

Code that works on values is a set of functions and lemmas. Code that changes things step by
step is a class or a method with loops, proved against such functions. Libraries and the
operating system appear as inputs: JSON, SHA-256, Unicode tables, hexadecimal parsing,
directory listings, sorting, the answers of system calls, and the order in which tasks run.
What is assumed of them is always a named predicate (`Json`, `PlainAscii`, `AsciiDigits`,
`ReadsHex`, `Numeric`, `Faithful`, `Injective`, `Scans`, `Sorts`, `Lists`, `Closed`).

## Where the code does less than it seems to promise

Each has an input on which it happens, and the condition under which it does not.

- Redaction can put a secret back together around a marker. A sole secret is safe for every
  stream exactly when it is not `Leaky`; sharing bytes with the marker is not enough to leak
  (`Redactor.SafeExactlyWhenNotLeaky`, `Redactor.LeakIsReal`, `Redactor.ClashIsNotLeak`).
  A list is safe for every stream when no member is rebuilt by the marker put for it or for
  another member (`Redactor.PeacefulStaysOut`). Members that are each safe alone can leak
  together, and in either order: a later secret too, if its start was already emitted when the
  marker for an earlier one was put (`Redactor.LeakTogether`, `Redactor.LeakAcrossReads`). The
  converse holds where the other secrets do not interfere with the pair
  (`Redactor.RebuiltGetsOut`).
- How the output was read is not visible in the evidence of a sole secret that is not leaky
  (`RedactorWhole.ReadsDoNotMatter`); of two secrets that overlap, the reads decide which one is
  replaced (`RedactorWhole.ReadsMatterForTwo`).
- An alternate screen is left only if the stream is not inside an open string
  (`TerminalAlternate.AlternateRoundTrip`, `TerminalFailures.OpenStringStays`).
- Wide glyphs are split by insert mode, by character insertion and deletion and by late
  combining marks, and by nothing else: `TerminalPairing.StepPairs` gives the condition per
  character, both ways, `TerminalPairing.FreshPairs` a sufficient one on the stream alone, and
  `TerminalFailures` a stream from a fresh screen for each of them.
- A tool turn can complete with a result that names a call which never finished. It names the
  call that did finish if and only if no other call has overtaken it: that is, the last matching
  call between the finish and the result, if there is one, has the same identity
  (`JournalStep.CompletedTool`, `JournalExample.UnfinishedCallReported`).
- The relay checks its limit of eight receipts before it awaits a body and adds the receipt
  afterwards. Nineteen is the exact bound (`Relay.RelayConserves`, `RelayExample.BoundIsReached`).
- The relay's joined close raises exactly when it cancels a task that is already closing its
  streams, because the cancellation skips the statements that take it off the books
  (`Relay.CloseRaisesExactly`, `Relay.CloseCanRaise`).
- An accepted contract and a validated build need not lead to an archive that verifies. A doubled
  slash or a dot name in a member path is staged and packaged and then fails verification
  (`ReleaseExample.DoubledSlash`), a name that no archive header holds fails in packaging
  (`ReleaseExample.LongName`), and a closing brace, which the contract may hold, fails when the
  installer is rendered (`ReleaseExample.ClosingBrace`). Given a template with its markers,
  publication goes through exactly when member paths are plain, free of closing braces and none
  lies above another, the rendered installer and the receipt are within their limits, every name
  and size fits the ustar header, and the time fits the 32 bits of the gzip header
  (`ReleaseArchive.Publish`, `Release.RenderableIs`).

## Model

| member | source | states |
|---|---|---|
| Scope.FeedAppend | scripts/perf_process_scope.py:39-47 | the reader ends in the same state however the pipe is cut into reads |
| Scope.FeedMonotone | scripts/perf_process_scope.py:49-81 | closure and failure are never taken back, and a failed reader changes neither its table nor its closure |
| Scope.RecordIsReplay | scripts/perf_process_scope.py:49-81 | the nested record checks equal a two-stage specification: spell exactly one record, then obey the protocol |
| Scope.FeedBody | scripts/perf_process_scope.py:39-47 | bytes of an unfinished line fill the buffer up to the record limit and fail the reader beyond it |
| Scope.FeedFrame | scripts/perf_process_scope.py:39-81 | a whole record on an empty buffer is exactly one protocol step |
| Scope.FeedGarbled | scripts/perf_process_scope.py:39-81 | a record behind the remains of an interrupted one is never accepted |
| Scope.TokensDiffer | scripts/perf_process_scope.py:150-152 | tokens of one process with different counters differ, through the decimal digits |
| ScopeWriter.NextIsNew | scripts/perf_process_scope.py:143-154 | a new token is never active already, and old tokens keep their names |
| ScopeWriter.ApplyAllKeeps | scripts/perf_process_scope.py:132-175 | every run of scope operations with any write failures keeps the active tokens bounded and its own, and what any reader can have seen consistent |
| ScopeWriter.ClosureIsProof | scripts/perf_process_scope.py:93-99 | fail closed: a reader that has seen closure in any part of the pipe proves that nothing failed and nothing is active |
| ScopeWriter.ReaderFollowsWriter | scripts/perf_process_scope.py:39-175 | simulation for every run and every cut of the bytes: the reader fails exactly when a start acknowledgement was out of order, otherwise its tokens are the writer's and require_closed succeeds exactly when closure was announced |
| ScopeWriter.ChunksDoNotMatter | scripts/perf_process_scope.py:83-91 | feeding any pieces equals feeding their concatenation |
| ScopeWriter.TableFollowsLog | scripts/perf_process_scope.py:65-77 | the reader's table is determined, token by token, by the latest record about it |
| ScopeHistory.AcceptsExactlyLegal | scripts/perf_process_scope.py:49-81 | a reader accepts a log of records if and only if every record is legal where it stands: nothing after closure, a start for a token that is not open and while there is room, an acknowledgement and a settlement for an open one, closure with none open |
| ScopeHistory.CallAnnounces | scripts/perf_process_scope.py:121-175 | every scope call writes its own record and no other; the scope fails exactly when a record was not taken whole; a start opens its token and a settlement closes it even if the write fails; closure counts only if taken whole |
| ScopeHistory.SettledProvesIt | scripts/perf_process_scope.py:93-99 | liveness: a wrapper that acknowledged its children in order, lost no record and settled them all satisfies the reader of its pipe, in any pieces |
| Owner.Cooperate | scripts/perf_process_owner.py:83-95 | waiting makes no system call on the group and only reads on from the pipe |
| Owner.RetireOk | scripts/perf_process_owner.py:73-104 | retirement never signals after the reap, and succeeds only after kill, reap and absence in that order and, if delegated, a closed scope |
| Owner.RetiresExactly | scripts/perf_process_owner.py:80-104 | retirement succeeds if and only if kill, reap and absence were answered well and, if delegated, the term signal was and the child was seen to exit in time with the closure of its scope among the bytes read by then |
| Owner.SettlesExactly | scripts/perf_process_owner.py:73-115 | an open owner ends finished if and only if that holds and its acknowledgement was accepted and taken whole, otherwise failed; the system calls made are a prefix of term, kill, reap, absence, and all of them on success; the scope is untouched if the group did not go down |
| Owner.SettleOk | scripts/perf_process_owner.py:73-115 | repeated settle calls keep the owner's invariant, never undo a failure and never touch a finished owner |
| Owner.AckNeedsProof | scripts/perf_process_owner.py:105-109 | a settle leaves the owner finished, or its token active, or its scope failed |
| Nesting.RunOk | scripts/perf_process_owner.py:28-115 | every state of every run of launches, settles, drains, signals and exit keeps the invariant that ties owners to their scope |
| Nesting.ClosedTreeIsSettled | scripts/perf_process_scope.py:159-175 | a wrapper that announced closure left every group below it, at any depth, killed, reaped and proved absent, or never spawned |
| Nesting.NestedSettlement | scripts/perf_process_owner.py:81-106 | a successful settle of a delegated owner proves the same for the whole tree below it |
| Nesting.NeverSignalsReaped | scripts/perf_process_wait.py:61-96 | in no state of any run has an owner signalled a group after reaping its leader |
| SettlementObjects.ScopeReader.Append | scripts/perf_process_scope.py:39-47 | the reading loop is the specified feed |
| SettlementObjects.ScopeReader.Record | scripts/perf_process_scope.py:49-81 | the record checks in place are the specified step |
| SettlementObjects.ScopeReader.DrainPipe | scripts/perf_process_scope.py:83-91 | what is fed is the concatenation of the first reads, at most sixteen, up to the first that blocks or is empty |
| SettlementObjects.ProcessScope.Begin | scripts/perf_process_scope.py:143-154 | registers before it sends; hands out the token if and only if the start is not refused (cancelled, a cleanup without its owner, or no room) and the record was taken whole, and then exactly that token is active besides the others |
| SettlementObjects.ProcessScope.Release | scripts/perf_process_scope.py:159-161 | removes the token before it sends the acknowledgement; succeeds if and only if the token was active and the record was taken whole |
| SettlementObjects.ProcessScope.AtExit | scripts/perf_process_scope.py:168-175 | closure is sent if and only if nothing failed, nothing is active and the record is taken whole |
| SettlementObjects.OwnedProcess.SettleGroup | scripts/perf_process_owner.py:73-115 | the owner object performs exactly the specified settle, and on an open owner it succeeds if and only if the group went down, the child left in time with its scope closed, and the acknowledgement got through |
| Redactor.NoSecretEscapes | scripts/ci_evidence.py:53-66 | for any cut into reads, no secret of a list that is clear of the marker appears in the concatenated evidence, not even across emission cuts |
| Redactor.PeacefulStaysOut | scripts/ci_evidence.py:53-66 | for any cut into reads, no secret of a list in which no marker rebuilds a member appears in the concatenated evidence, not even across emission cuts |
| Redactor.ScrubRemoves | scripts/ci_evidence.py:59-63 | one pass over such a list leaves no secret behind, whatever its order |
| Redactor.ReplaceAddsNothing | scripts/ci_evidence.py:61-62 | replacement creates no occurrence of a word that the marker does not rebuild, behind any prefix |
| Redactor.NoBracketIsClear | scripts/ci_evidence.py:53-66 | a secret without square brackets that is no part of REDACTED is clear of the marker |
| Redactor.TransparentWithoutSecrets | scripts/ci_evidence.py:59-66 | a stream without secrets reaches the evidence byte for byte |
| RedactorWhole.ReadsDoNotMatter | scripts/ci_evidence.py:53-66 | with one secret that its marker does not rebuild, the evidence is the whole output with the secret replaced from the left, however the output was read |
| RedactorWhole.ReadsMatterForTwo | scripts/ci_evidence.py:53-66 | two secrets clear of the marker that overlap in the output, and two ways to read the same output with different evidence |
| RedactorWhole.ReplaceJoins | scripts/ci_evidence.py:61-62 | every text is cut at the copies found from the left, and replacement joins the same pieces with the marker |
| RedactorWhole.CutOnce | scripts/ci_evidence.py:61-62 | and conversely for every such list of pieces |
| RedactorWhole.ReplaceResumes | scripts/ci_evidence.py:59-63 | replacing what was replaced with more text behind it is replacing once in the longer text |
| Redactor.SafeExactlyWhenNotLeaky | scripts/ci_evidence.py:59-66 | a sole secret stays out of every stream, however it is read, if and only if it is not leaky |
| Redactor.LeakIsReal | scripts/ci_evidence.py:59-66 | the one-read input on which a leaky secret reappears |
| Redactor.RebuiltGetsOut | scripts/ci_evidence.py:59-66 | the one-read input on which the marker of one secret completes another, and when it gets out |
| Redactor.LeakTogether | scripts/ci_evidence.py:59-66 | two secrets, neither leaky alone, that leak together |
| Redactor.LeakAcrossReads | scripts/ci_evidence.py:59-66 | the same with the rebuilt secret after the one replaced, over two reads |
| Redactor.ClashIsNotLeak | scripts/ci_evidence.py:53-66 | a secret that overlaps the marker and cannot leak, and one that does |
| Redactor.SecretBuffer.Redact | scripts/ci_evidence.py:59-66 | returned and pending bytes together are the scrubbed text, and at most the held length stays pending |
| Redactor.EvidenceLog.Retain | scripts/ci_evidence.py:68-77 | log, tail and counts stay those of everything retained so far |
| Redactor.LastAppend | scripts/ci_evidence.py:68-77 | the tail of a tail is the tail of the whole |
| Redactor.Observe | scripts/ci_evidence.py:53-115 | the log is the first 8 MiB of the redacted stream, the tail its last 128 KiB, and written plus omitted bytes are all of it |
| Terminal.Consume | scripts/m4_terminal_screen.py:45-115 | after any character the grid has its shape, the cursor and margins are in range, the saved screen has the same shape, and cells and the parameter buffer are bounded |
| Terminal.Run | scripts/m4_terminal_screen.py:38-40 | the same for any stream |
| Terminal.RunAppend | scripts/m4_terminal_screen.py:38-40 | feeding in pieces equals feeding the whole |
| Terminal.Put | scripts/m4_terminal_screen.py:150-181 | writing a glyph keeps the screen valid and its dimensions (what it writes: `TerminalGlyphs`) |
| Terminal.Edit | scripts/m4_terminal_screen.py:205-234 | erasing, shifting and scrolling keep the screen valid and its dimensions (what is shown: `TerminalEdits`) |
| Terminal.Control | scripts/m4_terminal_screen.py:183-257 | every control sequence with any parameters keeps the screen and the saved screen valid (what each does: `TerminalControl`, `TerminalEdits`, `TerminalGlyphs`, `TerminalParsing`) |
| TerminalControl.RunSequence | scripts/m4_terminal_screen.py:56-101 | from any state outside strings the bytes of a sequence perform its control function |
| TerminalControl.CursorAddress | scripts/m4_terminal_screen.py:192-195 | the bytes of a cursor address put the cursor at that row and column, counted from one, a missing or zero one as one, stopped at the edges and in origin mode within the margins; no cell changes |
| TerminalControl.CursorUpDown | scripts/m4_terminal_screen.py:196-204 | the same for up, down, next and previous line and the row by number |
| TerminalControl.CursorAcross | scripts/m4_terminal_screen.py:196-203 | the same for left, right and the column by number |
| TerminalControl.MarginsSet | scripts/m4_terminal_screen.py:235-239 | margins in order and on the screen are taken and the cursor goes home; others change nothing |
| TerminalControl.CursorSaved | scripts/m4_terminal_screen.py:240-241 | the cursor is saved, and goes back to where it was saved |
| TerminalEdits.LineErased | scripts/m4_terminal_screen.py:214-217 | for each column of each row what erasing in the line leaves: a blank in the span and for the halves of glyphs cut at its ends, the old cell elsewhere, on any row |
| TerminalEdits.ScreenErased | scripts/m4_terminal_screen.py:205-213 | the same for erasing below, above and all; other numbers do nothing |
| TerminalEdits.LinesScrolled | scripts/m4_terminal_screen.py:229-234 | for each row which old row or blank is shown after inserting or deleting lines at the cursor and after scrolling the margins up or down |
| TerminalEdits.CharactersShifted | scripts/m4_terminal_screen.py:218-228 | for each column which old cell or blank is shown after inserting or deleting characters, a glyph cut at the cursor blanked first |
| TerminalGlyphs.ControlCharacters | scripts/m4_terminal_screen.py:106-113 | carriage return, backspace, tab to the next multiple of eight, and line feeds that go down a row or scroll the margins up by one |
| TerminalGlyphs.EscapeCommands | scripts/m4_terminal_screen.py:59-87 | the commands behind an escape: save, restore, index, next line, reverse index and reset |
| TerminalGlyphs.ModeSet | scripts/m4_terminal_screen.py:242-257 | wrap, origin and insert mode; entering the alternate screen shows a blank one with full margins, leaving it brings back the one put aside, and all other numbers do nothing |
| TerminalGlyphs.ModesInOrder | scripts/m4_terminal_screen.py:242-257 | a list of modes is set one by one in the order given |
| TerminalGlyphs.GlyphPlaced | scripts/m4_terminal_screen.py:162-181 | for each column what a glyph of one or two columns leaves, overwriting or inserted, and where the cursor and the pending wrap are |
| TerminalGlyphs.GlyphWraps | scripts/m4_terminal_screen.py:162-166 | a glyph that wraps is one behind a carriage return and a line feed |
| TerminalGlyphs.GlyphJoined | scripts/m4_terminal_screen.py:151-160 | what joins the glyph before it is added to its cell, up to 64 characters, and is dropped without one |
| TerminalGlyphs.GlyphDropped | scripts/m4_terminal_screen.py:167-168 | a glyph without room that may not wrap changes no cell |
| TerminalParsing.SequenceIgnored | scripts/m4_terminal_screen.py:92-101 | a sequence with parameters over 256 characters or not in numbers, or with an unknown final character, changes nothing |
| TerminalParsing.EscapesIgnored | scripts/m4_terminal_screen.py:59-91 | a designation takes one character more, and other characters behind an escape do nothing |
| TerminalParsing.Cancelled | scripts/m4_terminal_screen.py:52-55 | cancel and substitute break off any sequence but a string |
| TerminalParsing.EightBit | scripts/m4_terminal_screen.py:102-105 | eight-bit introducers are their seven-bit forms |
| TerminalParsing.ControlsIgnored | scripts/m4_terminal_screen.py:102-115 | other control characters are not shown |
| TerminalText.AsciiClosedForm | scripts/m4_terminal_screen.py:117-181 | any printable text on a fresh w by h screen shows character (k + r) * w + c at row r, column c, with the cursor and the pending wrap also in closed form |
| TerminalAlternate.AlternateRoundTrip | scripts/m4_terminal_screen.py:248-257 | on values: entering, any drawing that neither leaves nor resets, and leaving restores grid, cursor and margins exactly, if and only if the drawing does not end inside an open string |
| TerminalAlternate.StepKeeps | scripts/m4_terminal_screen.py:183-257 | no character replaces a saved primary screen by another one |
| TerminalAlternate.RunSwitch | scripts/m4_terminal_screen.py:92-101 | the bytes of a switch sequence enter or leave the alternate screen from any state outside strings |
| TerminalAlternate.Swallowed | scripts/m4_terminal_screen.py:45-51 | inside an open string everything up to its end changes nothing on the screen |
| TerminalStyling.StylingInvisible | scripts/m4_terminal_screen.py:45-116 | a complete styling sequence or terminated string changes nothing but a stale buffer, over-long parameters included |
| TerminalStyling.StylingErasure | scripts/m4_terminal_screen.py:45-116 | deleting any choice of such sequences from a stream leaves grid, cursor, margins, modes, pending wrap, join state and parser state the same |
| TerminalPairing.EraseSpanPairs | scripts/m4_terminal_screen.py:139-148 | erasing a span blanks it and the halves of glyphs cut at its ends, touches nothing else, and keeps wide glyphs whole |
| TerminalPairing.InsertPairs | scripts/m4_terminal_screen.py:169-176 | in insert mode a glyph keeps the row paired exactly when it splits no pair at the cursor or the margin |
| TerminalPairing.ShiftPairs | scripts/m4_terminal_screen.py:218-228 | inserting or deleting characters keeps the row paired exactly under the stated condition |
| TerminalPairing.AttachPairs | scripts/m4_terminal_screen.py:152-158 | a combining mark keeps the row paired exactly when its cell is no continuation |
| TerminalPairing.StepPairs | scripts/m4_terminal_screen.py:45-257 | one character keeps every wide glyph together on every grid if and only if the stated condition holds |
| TerminalPairing.RunPairs | scripts/m4_terminal_screen.py:45-257 | from any paired screen with insert and join off, every stream without combining marks, character insertion or deletion and insert mode keeps all wide glyphs together |
| TerminalPairing.FreshPairs | scripts/m4_terminal_screen.py:45-257 | every such stream keeps a fresh screen paired, whatever its size |
| TerminalFailures.ShiftSplits | scripts/m4_terminal_screen.py:218-228 | a stream from a fresh screen after which inserting or deleting a character has split a glyph |
| TerminalFailures.InsertSplits | scripts/m4_terminal_screen.py:169-176 | one after which insert mode has |
| TerminalFailures.MarkSplits | scripts/m4_terminal_screen.py:152-158 | one after which a combining mark behind a scroll has |
| TerminalFailures.OpenStringStays | scripts/m4_terminal_screen.py:45-51 | one whose leave sequence is swallowed by an open string |
| TerminalObserver.TerminalScreen.Consume | scripts/m4_terminal_screen.py:45-115 | the step on heap rows is the specified step, keeps all rows and the saved ones apart, and changes no saved row |
| TerminalObserver.TerminalScreen.Feed | scripts/m4_terminal_screen.py:38-40 | feeding the object is the specified run, with the same separation |
| TerminalObserver.TerminalScreen.Edit | scripts/m4_terminal_screen.py:205-234 | in-place erasing, shifting and scrolling of rows are the specified edit and touch no row of the saved screen |
| TerminalObserver.TerminalScreen.PutAside | scripts/m4_terminal_screen.py:248-252 | the page object itself is saved and a fresh one shown, with no row in common |
| TerminalObserver.TerminalScreen.LeaveAlternate | scripts/m4_terminal_screen.py:253-257 | the very page that was saved is shown again |
| TerminalObserver.RoundTrip | scripts/m4_terminal_screen.py:248-257 | on the object: after entering, any in-place drawing that neither leaves nor resets, and leaving, grid, cursor and margins are as before, if and only if the drawing does not end inside an open string |
| TerminalPage.Page.Scroll | scripts/m4_terminal_screen.py:124-128 | scrolling moves row references and adds fresh rows: the page shows the scrolled grid and its rows stay distinct |
| TerminalPage.Page.Shift | scripts/m4_terminal_screen.py:218-228 | shifting one row object in place changes that row of the grid and no other |
| JournalLines.ScanIsExact | scripts/soak_journal.py:104-128 | the records scanned from a prefix are its lines, each with the bytes at its own offset, tiling everything before the rest |
| JournalLines.ScanPrefix | scripts/soak_journal.py:99-128 | what was read does not depend on what is appended later |
| JournalLines.RestIsTail | scripts/soak_journal.py:112-128 | the pending rest is the newline-free end of what was read and starts at a record boundary |
| JournalProbe.Extract | scripts/soak_journal.py:112-127 | the newline loop takes exactly the complete records between two offsets and leaves exactly the rest, and fails if and only if a record or the rest is over the bound |
| JournalProbe.ReadableSplit | scripts/soak_journal.py:104-128 | reading a stretch is free of faults, and leads to the same session and step, independent of where the reads are cut |
| JournalProbe.BoundedSplit | scripts/soak_journal.py:119-127 | the record bound on a stretch is the bound on its parts, wherever it is cut |
| JournalLines.RestGoesOn | scripts/soak_journal.py:112-127 | what is pending is the beginning of the next record or of the rest |
| JournalProbe.FilesAdvance | scripts/soak_journal.py:99-128 | reading on in one file keeps the books of all the others |
| JournalProbe.ExactlyOnce | scripts/soak_journal.py:86-133 | the observed records of a file are its lines, once, in order, without gap, each where its proof says, and the rest is pending |
| JournalProbe.FilesGrow | scripts/soak_journal.py:86-133 | appending to files changes nothing already observed |
| JournalProbe.EventLogProbe.Observe | scripts/soak_journal.py:139-171 | a record is observed if and only if it is the next event of the one session, of an admissible kind, and no fault of the pending step; the step stays what the automaton makes of the records observed since it began |
| JournalProbe.EventLogProbe.PollFile | scripts/soak_journal.py:92-128 | one file within the budget fails if and only if the stretch it covers, taken as a whole, holds a fault; otherwise the offset, the budget and the session are those after the whole stretch, whatever the chunk size |
| JournalProbe.EventLogProbe.PollAll | scripts/soak_journal.py:86-133 | the exactly-once invariant over any listing, budget and file contents; observed records and offsets only grow, the bytes read in all files together are what was taken from the budget of 4 MiB, and unless it ran out every listed file is read to its end |
| JournalProbe.EventLogProbe.StaysValid | scripts/soak_journal.py:86-133 | between polls the files may grow |
| JournalProbe.EventLogProbe.TurnProved | scripts/soak_journal.py:169-244 | end to end: a completed turn lies in the journal files, its start, input, delta, body and finish observed in that order, numbered in one session, each a line of its file at the offset of its proof |
| JournalProbe.EventLogProbe.ToolProved | scripts/soak_journal.py:194-203 | the same for the call, finish and result of a completed tool turn, with the exact condition for the result to name the call that finished, on the observed records |
| JournalProbe.EventLogProbe.CompactionProved | scripts/soak_journal.py:181-231 | the same for a completed compaction |
| JournalProbe.EventLogProbe.Keep | scripts/soak_journal.py:241-244 | the proof kept of a completed step is that of an observed committed body with its marker and of the later end of its turn |
| JournalProbe.EventLogProbe.MarkerPersisted | scripts/soak_journal.py:252-267 | answers false for any other marker; otherwise polls, and answers true exactly when both paths lead to the files of the proof and the digests of what is there agree |
| JournalProbe.EventLogProbe.PersistedIsThere | scripts/soak_journal.py:252-267 | with a digest without collisions, that is if and only if the very bytes of that body and of that end are still at their offsets; and so they are if the files only grew |
| JournalProbe.EachFound | scripts/soak_journal.py:92-128 | every observed record is a line of its file at its offset, and two of one file come in the order of their offsets |
| JournalProbe.EventLogProbe.BeginStep | scripts/soak_journal.py:79-84 | a step begins exactly when the marker is well formed and no other step is open |
| JournalStep.DecideHolds | scripts/soak_journal.py:169-234 | a transition is taken only on an event that is what its label says, in a step that allows it |
| JournalStep.RunOrdered | scripts/soak_journal.py:169-244 | the labels of any run come in the order of the protocol, at named positions |
| JournalStep.CompletedTurn | scripts/soak_journal.py:169-244 | a completed step has a trace witness: turn started, input with the marker accepted, body with the marker committed, turn finished, and a nonempty delta, all of one turn |
| JournalStep.CompletedTool | scripts/soak_journal.py:194-203 | a completed tool step also saw a matching call, its successful finish, and a result with the sequence of that finish for the latest call before it; that is the call which finished if and only if no call with another identity has overtaken it |
| JournalExample.UnfinishedCallReported | scripts/soak_journal.py:139-203 | nine consecutive records of a session that the probe observes and reports complete, while the call named by the result never finished |
| JournalExample.Takes | scripts/soak_journal.py:139-171 | consecutive genuine records over which the automaton runs are all observed |
| JournalStep.CompletedCompaction | scripts/soak_journal.py:181-231 | a completed compaction saw a manual start, a committed summary and a finish that agree on turn and cause |
| JournalOutcomes.RaisesExactly | scripts/soak_journal.py:169-233 | an open step faults on exactly the stated events, a completed one on none |
| JournalOutcomes.EndsDecide | scripts/soak_journal.py:220-233 | a turn that finishes and a compaction that ends are never left open |
| JournalOutcomes.CompactionEnds | scripts/soak_journal.py:181-233 | the converse: a compaction under way completes if and only if the finish agrees with its latest summary on the turn and with its start on the cause, with the proof of that summary; any other finish, a failure and a second start are faults |
| JournalOutcomes.TurnEnds | scripts/soak_journal.py:186-227 | the converse for a turn: started, accepted, then finished, it completes if and only if the status is completed, there was a delta and a marked body, with the proof of the latest one; otherwise that is a fault |
| JournalOutcomes.ToolCompletes | scripts/soak_journal.py:194-227 | the converse for a tool turn: with a matching call, its successful finish and a result that reports it in that order it completes |
| JournalOutcomes.ToolFaults | scripts/soak_journal.py:220-226 | a tool turn that finishes with another status, without a delta or without a reported call is a fault |
| Masker.MaskedRust | scripts/check-network-boundaries.py:61-160 | the masking loop over a mutable copy computes the token-level meaning (`Mask`, whose tokens `RustTokens` spells out) |
| RustTokens.MaskToken | scripts/check-network-boundaries.py:61-160 | each kind of token, spelled out (comments nested in comments, strings of characters and escapes, raw strings with any hashes, character literals, line comments), is blanked but for newlines, code is kept, and what follows is masked as if it stood alone |
| RustTokens.MaskOfTokens | scripts/check-network-boundaries.py:61-160 | the same for any sequence of tokens |
| RustTokens.OpenComment | scripts/check-network-boundaries.py:116-131 | a block comment that never closes, nested ones counted, is blanked to the end of the text |
| RustTokens.OpenString | scripts/check-network-boundaries.py:132-149 | so is a string that never closes |
| RustTokens.OpenRaw | scripts/check-network-boundaries.py:150-159 | and a raw string |
| Masker.MaskShape | scripts/check-network-boundaries.py:61-160 | each position keeps its character or becomes a space, newlines stay, and no double quote survives |
| Masker.MaskIdempotent | scripts/check-network-boundaries.py:61-160 | a masked text has nothing left to mask |
| Masker.CharScan | scripts/check-network-boundaries.py:56-58 | a character token ends exactly where the literal's expression stops matching |
| Masker.StepWrites | scripts/check-network-boundaries.py:70-158 | each step of the state machine writes the next piece of the token-level meaning |
| Masker.ItemEnd | scripts/check-network-boundaries.py:163-191 | a test item ends after its first semicolon if that comes before any brace, otherwise just past the matching brace; it starts behind all attributes and space |
| Masker.MatchingBrace | scripts/check-network-boundaries.py:183-191 | the depth loop finds the matching brace, or the end of the text if there is none |
| Masker.SkipAttributes | scripts/check-network-boundaries.py:165-174 | the skipped text is space and attributes, each up to its first closing bracket; then the item starts, or an attribute never closes |
| Masker.ProductionSource | scripts/check-network-boundaries.py:194-207 | what is kept is the masked text outside the test items, in order; the items are disjoint, each is a whole item behind a test attribute, and every test attribute starts in one of them |
| Masker.OutsideNext | scripts/check-network-boundaries.py:201-206 | the text up to the next item is kept and the item dropped |
| Chunked.DecodeUndoesEncode | scripts/m4_gate_support.py:227-244 | decoding undoes encoding for any chunks and extensions (section 7.1 of RFC 9112), leaving exactly the following bytes |
| Chunked.MissingTerminator | scripts/m4_gate_support.py:243-244 | after any whole chunks, a payload that is not followed by its terminator is refused |
| Chunked.BadSize | scripts/m4_gate_support.py:230-236 | so is a line that is no size |
| Chunked.PrefixIsIncomplete | scripts/m4_gate_support.py:210-244 | a body cut short anywhere is neither complete nor refused |
| Chunked.PayloadOfEncoding | scripts/m4_gate_support.py:332-356 | the payload of an event stream is the concatenation of its chunks, wherever they were cut |
| Chunked.Receiver.ReceiveUntil | scripts/m4_gate_support.py:210-215 | finds the first marker of the whole stream, whatever the segments |
| Chunked.Receiver.ReceiveBytes | scripts/m4_gate_support.py:217-219 | succeeds exactly when the stream has that many bytes |
| Chunked.Receiver.ReadPiece | scripts/m4_gate_support.py:230-244 | one chunk with its size line, as specified on the whole stream |
| Chunked.Receiver.ReadChunkedBody | scripts/m4_gate_support.py:227-244 | in any segmentation: the decoded body and the bytes after it, or the failure the whole stream calls for |
| Chunked.ReadBodies | scripts/m4_gate_support.py:227-244 | bodies that follow each other on one connection come out one by one as they were encoded, whatever the segments |
| Chunked.SseStream.DecodeMore | scripts/m4_gate_support.py:332-356 | decoding one more chunk does not change the payload stream |
| Chunked.SseStream.NextFrame | scripts/m4_gate_support.py:323-330 | the next frame ends at the first blank line of the payload stream, independent of chunk and segment boundaries |
| Chunked.ReadFrames | scripts/m4_gate_support.py:323-330 | reading on until it fails gives exactly the frames of the whole payload stream |
| Chunked.FramesAreExact | scripts/m4_gate_support.py:323-330 | the frames with their blank lines and the rest are the whole stream, and no frame could have ended earlier |
| JsonSize.JsonByteLength | protocol/ui-presentation-validator.js:2 | the bounded counter is the length of the compact encoding (section 7 of RFC 8259, lone surrogates escaped) if the value fits JSON, the depth and the limit, otherwise the limit plus one |
| JsonSize.Counter.Visit | protocol/ui-presentation-validator.js:2 | counting a value with early exit is exact within the limit, and over it exactly when the encoding is |
| JsonSize.Counter.AddString | protocol/ui-presentation-validator.js:2 | the same for an escaped string |
| JsonSize.CharsCost | protocol/ui-presentation-validator.js:2 | each code unit or pair counts for exactly the bytes of its escape or encoding |
| JsonSize.Utf8ByteLength | protocol/ui-presentation-validator.js:2 | the bounded count exceeds its limit exactly when the UTF-8 text does, and is exact otherwise |
| JsonSize.Ucs2Length | protocol/ui-presentation-validator.js:2 | counts code points, never more than the UTF-8 bytes |
| JsonSize.CountedWithinBytes | protocol/ui-presentation-validator.js:2 | between one and four bytes per code point |
| JsonReading.ReadsBack | protocol/ui-presentation-validator.js:2 | what is counted is the spelling of the value: read back by the grammar of RFC 8259 it is the value with undefined members dropped and null for undefined elements and numbers that are not finite, for any text behind it |
| JsonReading.CharsRead | protocol/ui-presentation-validator.js:2 | the same for the characters of a string, with lone surrogates and all escapes |
| JsonReading.TextReads | protocol/ui-presentation-validator.js:2 | UTF-8 text reads back as its code units (section 3 of RFC 3629) |
| JsonReading.HoldsExactly | protocol/ui-presentation-validator.js:2 | a value is counted if and only if it has nothing in it that JSON does not know and nests at most 64 deep |
| Relay.StepKeeps | scripts/rich_impairment.py:80-218 | every step of every task keeps the counters equal to the sums over the tasks, the bounds, and the set of open streams |
| Relay.RelayConserves | scripts/rich_impairment.py:80-218 | over every interleaving: held counts the withheld responses, held bytes add up to their sizes, the peak is the most ever withheld, at most 12 callers, 14 tasks and 19 receipts, and no more held receipts than granted arms |
| Relay.PeakStep | scripts/rich_impairment.py:205-207 | only entering the withheld section raises the peak, to the bytes then withheld |
| Relay.PledgeStep | scripts/rich_impairment.py:95-99 | held receipts, selections and the armed flag together grow only with a granted arm |
| Relay.PeakBound | scripts/rich_impairment.py:198-207 | the peak never exceeds twelve full responses |
| Relay.WritesOnlyWhenAllowed | scripts/rich_impairment.py:208-215 | a response is written only while the relay is on line and to a caller still there, and a held one only after the release |
| Relay.RetainedIsLive | scripts/rich_impairment.py:71-73 | everything close looks for comes down to a task that is not done |
| Relay.CloseRaisesExactly | scripts/rich_impairment.py:60-73 | the joined close raises if and only if it cancelled a task that was closing its streams; one that was still joining the parts of its response closes normally |
| Relay.CloseCanRaise | scripts/rich_impairment.py:166-173 | a two-step run after which it does |
| RelayExample.BoundIsReached | scripts/rich_impairment.py:195-204 | a run with nineteen receipts, eleven over the limit |
| RelayObject.ImpairmentRelay.Command | scripts/rich_impairment.py:95-111 | each command by name: an arm is granted exactly when none is and no response is withheld, and then takes back a release; release and resume set their own flag and no other; status changes none; after a disconnect every open stream but its own is closing; a refused command changes no flag; the counters stay the sums over the tasks |
| RelayObject.ImpairmentRelay.TakeRequest | scripts/rich_impairment.py:148-153 | the armed flag goes to a bounded artifact request and to no other, and a request out of bounds is ended without it |
| RelayObject.ImpairmentRelay.TakeHeader | scripts/rich_impairment.py:195-200 | a body is awaited if and only if it is framed, within the size bounds and below the receipt limit, and the invariant stays |
| RelayObject.ImpairmentRelay.TakeBody | scripts/rich_impairment.py:201-215 | exactly one more receipt, never more than nineteen; a held response is withheld, another is written if and only if the relay is on line and the caller still there; a peak at least the bytes then withheld and within its bound |
| RelayObject.ImpairmentRelay.Resume | scripts/rich_impairment.py:208-213 | a released response is written if and only if the relay is on line and the caller still there |
| RelayObject.ImpairmentRelay.Deliver | scripts/rich_impairment.py:213-215 | a drained response marks its own receipt as delivered and no other |
| RelayDelivery.ReleaseDelivers | scripts/rich_impairment.py:100-101 | over a run: on line, a release and the wake-up of a held response write it to its caller, and once drained exactly its receipt is marked and nothing of it is withheld |
| RelayDelivery.ResumeAdmits | scripts/rich_impairment.py:108-109 | a resume lets callers in again |
| RelayDelivery.Served | scripts/rich_impairment.py:125-218 | the whole life of a request that is not held: one more receipt, delivered, and nothing left behind |
| RelayObject.ImpairmentRelay.Leave | scripts/rich_impairment.py:216-218 | the counters lose exactly what was withheld for this caller and stay the sums over the others |
| RelayObject.ImpairmentRelay.CancelTasks | scripts/rich_impairment.py:66-70 | afterwards every open stream is closing, the release is set and no task is left in closing |
| RelayObject.ImpairmentRelay.Joined | scripts/rich_impairment.py:72-73 | the final check passes if and only if every task is done |
| Installer.InstallPackages | scripts/ci_inventory.py:123-157 | succeeds if and only if the reached packages are known, registered, acyclic and their commands work; then each needed command ran once, dependencies installed and built before consumers; a failure names its true cause and leaves an ordered log |
| Installer.Run.Visit | scripts/ci_inventory.py:134-154 | the recursive visit terminates, keeps the log ordered, and leaves the package installed and, as a dependency, built |
| Installer.Run.VisitDependencies | scripts/ci_inventory.py:142-148 | the dependency loop leaves every local dependency ready |
| Installer.OrderedAcyclic | scripts/ci_inventory.py:134-136 | nothing in an ordered log is on a cycle |
| Installer.LogIsProof | scripts/ci_inventory.py:134-157 | an ordered log of working, needed commands with every root proves the packages installable and has exactly the needed commands |
| Installer.MetAgain | scripts/ci_inventory.py:135-136 | a package met again while it is being visited is on a cycle |
| Release.ArchiveDirectories | scripts/release_contract.py:427-434 | the parent loops collect exactly the proper prefixes of the member paths |
| Release.ParentFirst | scripts/release_contract.py:434-434 | in a listing by depth every directory comes after its parent |
| Release.BudgetsSuffice | scripts/release_contract.py:326-358 | the budget checks leave room for every build that validation admits |
| Release.BudgetsDecide | scripts/release_contract.py:326-345 | in an accepted contract no product within its budget is refused for its extraction limit: a build is admitted exactly if nothing is empty, products are below their budgets and the rest within its limits |
| Release.Stage | scripts/release_contract.py:802-850 | staging succeeds if and only if the installer can be rendered, no member path is empty or a directory once reduced to its parts and no copied member finds a file in its place; then it leaves the directories and a file per member and nothing else |
| Release.StageMembers | scripts/release_contract.py:832-845 | the member loop over exclusive creation and atomic replacement |
| Release.CleanStages | scripts/release_contract.py:802-850 | a clean contract whose installer can be rendered can be staged |
| Release.PlainParts | scripts/release_contract.py:155-157 | a path is its own parts exactly when it has no empty and no dot names |
| ReleaseArchive.VerifyArchive | scripts/release_contract.py:437-519 | the verification loop decides exactly the specified verdict: names, kinds with special entries, modes of files and directories, sizes, expanded total and receipt |
| ReleaseMeaning.VerifiedIsRelease | scripts/release_contract.py:437-519 | an archive verifies if and only if it is the release of some build: a file per member with its mode and one to limit bytes, the folders around them, each name once and nothing else, within the expanded limit, and with a receipt that states the size and digest of the helper |
| ReleaseMeaning.ChangeFound | scripts/release_contract.py:457-477 | a verified archive with another name, type or permission for one entry, a file emptied or a folder filled no longer verifies |
| ReleaseMeaning.LossFound | scripts/release_contract.py:457-459 | nor does one with an entry less or more |
| ReleaseArchive.PackageTree | scripts/package-release.py:37-81 | packaging succeeds if and only if the time fits the gzip header and the ustar header holds every name and size, and then has an entry per listed path |
| ReleaseArchive.SplitName | scripts/package-release.py:79-79 | the search for a split finds one exactly when the name has one into a prefix of at most 155 and a rest of at most 100 characters |
| ReleaseArchive.LongNameNotHeld | scripts/package-release.py:79-79 | no header holds a name of over a hundred characters between its slashes, whatever comes before it |
| ReleaseArchive.CleanVerifies | scripts/package-release.py:65-81 | a clean staged release whose entries were packaged, in any order, verifies |
| ReleaseArchive.VerifiedIsClean | scripts/release_contract.py:437-484 | a staged release that verifies is clean |
| ReleaseArchive.VerifiedIsSized | scripts/release_contract.py:437-484 | a clean release that verifies has an installer and a receipt within their limits |
| Release.RenderableIs | scripts/release_contract.py:722-726 | for an accepted contract the installer can be rendered exactly when no member path holds a closing brace |
| ReleaseArchive.Publish | scripts/release_contract.py:802-850 | render, stage, package and verify go through if and only if the installer can be rendered and it and the receipt are within their limits, the member paths are plain, none lies above another, and the archive format holds every name, size and the time |
| ReleaseExample.DoubledSlash | scripts/release_contract.py:147-170 | for any faithful codec with a receipt of at most 1 KiB: an accepted contract with no path above another, a validated build and its staged tree, whose archive does not verify |
| ReleaseExample.LongName | scripts/release_contract.py:27-27 | one whose paths are plain and apart and that can be rendered, and that no root and time make fit the archive format |
| ReleaseExample.ClosingBrace | scripts/release_contract.py:27-27 | one whose paths are plain and apart and that cannot be rendered |

## Left out

- The Rust crates, the TypeScript packages, the gate and soak scripts, continuous integration and release automation: outside the modelled core, mostly plumbing around processes and remote services.
- Clocks and deadlines: how often something is polled before a deadline is an input.
- Processes and signals: a retried signal on Darwin and the reasons of a permission error are part of the answer of the system call.
- Settlement: closing descriptors, reading the child's output while waiting, and `require_settled`.
- Redactor.PeacefulStaysOut: sufficient for a list; the converse is `RebuiltGetsOut`, which asks that the other secrets leave the text alone and that the rebuilt one is a longest one, because otherwise a later pass or the final flush may still remove it.
- RedactorWhole.ReadsDoNotMatter: for one secret; for a list whose members overlap it is false (`ReadsMatterForTwo`).
- Terminal: the incremental UTF-8 decoder (streams are decoded characters), and the `text` property.
- Journal: truncation of a file that was already read, event counts and diagnostics. Records of one read are extracted before they are observed, which differs only in how far a read gets before an error ends the probe. JSON equality does not identify 1 with true.
- Masker: the expressions for test attributes, whose matches are an input, and the forbidden-call patterns.
- Chunked: trailers with content, negative sizes, bodies with a content length and event streams without chunking.
- JsonSize: `func84`, and properties added or hidden by prototypes and getters (a value is a tree).
- Relay: headers and sockets, the failure counter, how long a server waits for its connections, and a second connection that was accepted but had not run when close cancelled the tasks.
- Installer: the Bun version check and reading manifests (dependencies come resolved to packages).
- Release: parsing of the contract document, the template of the installer and what is filled in, several platforms at once, permissions other than the two modes the packager writes, links, the owner fields of the archive header (names are ASCII, so their length is counted in characters), files changed while they are copied, and a native library named with two dots, which would resolve outside the release.

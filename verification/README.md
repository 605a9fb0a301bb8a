# ServerOps: a verified model

ServerOps lets an MCP client run commands on remote servers through OpenSSH. A client talks to a
local broker over a named pipe, the broker to one worker per session over another, and a worker
drives one terminal with one remote Bash. This project models the parts of that chain where a
mistake would cost data or mislead the user, and proves what they promise. `dafny verify
dfyconfig.toml` checks all of it.

- **The command frame** (`FrameSpec`, `FrameParser`, `FrameChunks`, `FrameTranscript`,
  `FrameSoundness`, `FrameCompleteness`, `FrameRoundTrip`, `TerminalText`): token-delimited frames read incrementally
  from a fragmented, noisy byte stream. `CommandFrameParser` keeps the fields of the source; it is
  proved against a step specification, and the theorems are about that: a stream completes if and
  only if it begins with a valid transcript, what the wrapper prints is read back, and pieces do
  not matter for streams with short lines.
- **The terminal buffer** (`RingBuffer`, `LaggingReader`): a bounded cache with absolute cursors that refines an
  unbounded log.
- **The unified-diff engine** (`TextLines`, `Patch`, `PatchEngine`, `PatchMeaning`, `PatchInverse`,
  `PatchHeader`, `PatchPrinter`): lines are split at all of Python's separators. Applying hunks is characterised
  exactly, undone by swapped hunks, and inverts a printer of edit scripts, all the way from text to
  text.
- **The session** (`SessionState`, `Terminal`, `SessionSpec`, `Session`, `SessionProgress`,
  `Prompts`): a ten-state
  machine over a terminal that may do anything. The environment is an oracle: one observation for
  each time the session looks, and every theorem is for all oracles.
- **The delivery protocol** (`Outcomes`, `Delivery`, `DeliverySafety`, `DeliverySteps`,
  `DeliveryHandoff`, `DeliveryFinality`, `DeliveryProgress`,
  `DeliveryEnds`): any number of clients, broker threads and workers, with
  messages lost, late or cut off by a death at any point.
- **The supervisor's tables** (`SupervisorTable`, `Supervisor`), **the pipe** (`Pipe`) and **the
  listener** (`Listener`): the shared state under all interleavings of its locked regions.
- **File answers** (`Base64`, `Wire`, `RemoteCommand`, `RemoteText`, `Utf8`): rows of base64 cells
  (section 4 of RFC 4648) and UTF-8 cut at arbitrary bytes (sections 3 and 4 of RFC 3629), up to the
  end-to-end statement that the rows printed remotely are the rows received.
- **The key switch** (`ConfigRepository`, `KeySwitch`): staged compare-and-swap saves with
  compensation, while other programs write the same file.

Where the code does something in place, so does the model: classes with the source's fields,
loops with invariants, and contracts that tie the new state to a specification function whose
properties are then proved as lemmas.

## What the proofs found

- Chunking of the stream matters for newline-free runs of more than 4096 bytes
  (`FrameChunks.ChunkingMatters`); 4096 is the largest limit for which it never does
  (`FrameChunks.LargestLimit`).
- The session does not look at the drop flag of its reads: a command that prints more between two
  reads than the buffer holds can complete with output missing and not marked as truncated
  (`LaggingReader.OutputLost`). Reads are complete exactly when no drop flag was set
  (`SessionSpec.ReadsAreLogIff`).
- A failed session can still be running, and its close then writes `exit` and a line end to the
  shell, after whatever a failed write left half delivered (`SessionSpec.FarewellAfterFailure`).
  Nothing else is ever written to a session that is over (`SessionSpec.RunIsSafe`).
- A supervisor entry can become a zombie: when one thread's reply, received earlier, is recorded
  between another thread's "lost" and its removal of the handle, the entry shows a live session
  that no call can use or close (`SupervisorTable.ZombieRun`, `ZombieForever`). It happens exactly
  when a handle is taken away whose record is not lost (`StepLeavesNoZombie`).
- Of two concurrent closes of a session whose worker died the first can fail with "session does not
  exist" (`SupervisorTable.FirstCloseLoses`), exactly when the second one removed the entry
  (`FinishFindsEntry`).
- A pipe instance whose security check raises right after its creation is closed by no call of the
  listener (`Listener.UnownedIff`); it is left to the release of its handle object.
- A pipe connection stays open after a failed send until its user closes it, and other threads may
  send in between. The receiver can then read bytes that were never sent as a message
  (`Pipe.UnclosedSenderDesynchronises`), but no text: what it hands on was sent
  (`Pipe.OnlySentDelivered`).
- Applying a patch never looks at the new starts of its hunks. A patch with wrong ones applies but
  its reverse may not (`PatchInverse.WrongNewStart`); it applies at the same places exactly when
  the starts agree (`UndoneInPlaceIff`).
- In a diff of several files, the line with the second file's name is taken for a line of the hunk
  in front of it, unless a git line or a blank line comes first (`PatchPrinter.NameTakenForLine`).
- A save of the key switch can raise after it has replaced the file, as when securing the new file
  fails. The first one then leaves the staged password profile with no rollback
  (`KeySwitch.RejectedLeavesIff`, `StagedProfileLeft`); the second makes the switch report a
  concurrent change over its own content (`ConcurrentChangeIff`, `LateSaveReported`); and the
  rollback's own is reported as failed with the original back in place
  (`RestoredThoughFailedIff`, `RestoredThoughFailed`). These are the only ways to each end.
- A rollback restores the original configuration, and the file itself exactly when its layout was
  the encoder's (`KeySwitch.LayoutKeptIff`, `LayoutLost`).
- When installing the key fails outright, the caller is not told what became of the rollback, even
  if it failed and left the password profile in the file (`KeySwitch.RollbackHidden`).
- The broker answers the rediscovery of a lost session itself: that success is no sign that a
  worker handled anything (`DeliveryHandoff.EveryRun` makes the exception).
- A ring-buffer read past the end returns a next cursor below the caller's
  (`RingBuffer.NextCursorBelow`).

## Model

| member | source | states |
|---|---|---|
| FrameParser.CommandFrameParser.Feed | src/codex_serverops_mcp/ssh/framing.py:164-179 | the parser that updates its fields in place refines the step specification; a completed frame refuses further data and leaves the state alone |
| FrameParser.CommandFrameParser.ConsumeLine | src/codex_serverops_mcp/ssh/framing.py:181-229 | one line moves the phase flags exactly as the specification says, with the same error in each malformed case |
| FrameParser.CommandFrameParser.BoundPartialLine | src/codex_serverops_mcp/ssh/framing.py:245-256 | an overlong unfinished line is an error outside the output, and inside it all but the last 4096 bytes are stored |
| FrameParser.CommandFrameParser.StoreOutput | src/codex_serverops_mcp/ssh/framing.py:258-265 | the kept output stays the longest allowed tail of everything ever stored, and `truncated` holds exactly when something was lost |
| FrameChunks.ChunkIndependence | src/codex_serverops_mcp/ssh/framing.py:164-256 | however a tame stream is cut into pieces, feeding them gives the same result, the same error, or a state alike in all that matters |
| FrameChunks.ShortRunsAreTame | src/codex_serverops_mcp/ssh/framing.py:9-9 | streams whose newline-free runs are at most 4096 bytes are tame, so chunk independence covers them all |
| FrameChunks.ChunkingMatters | src/codex_serverops_mcp/ssh/framing.py:191-198 | beyond that limit chunking does matter: a concrete probe line is an error when fed whole and passes when its newline comes later |
| FrameChunks.LargestLimit | src/codex_serverops_mcp/ssh/framing.py:9-9 | all streams with newline-free runs of at most a given length are chunk independent if and only if that length is 4096 or less |
| FrameSoundness.NoFalseCompletion | src/codex_serverops_mcp/ssh/framing.py:181-243 | for any stream, pieces and line lengths, a result means the stream begins with a transcript of this token's frame: begin line, probe, then END, CWD and HEALTH lines one right after the other, and is what it says; inside the probe only blank lines pass, and fronts of lines over 4096 bytes, whatever they hold, which end up in the output |
| FrameSoundness.WholeCompletion | src/codex_serverops_mcp/ssh/framing.py:164-243 | a stream fed whole that completes begins with a transcript made of whole lines only |
| FrameSoundness.OutputConserved | src/codex_serverops_mcp/ssh/framing.py:213-216 | while the output runs, bytes stored, line held back and unfinished line together are exactly what followed the begin line, and the unfinished line stays bounded |
| FrameSoundness.DrainSettles | src/codex_serverops_mcp/ssh/framing.py:245-256 | after every feed that waits, the scan buffer holds no newline and at most 4096 bytes |
| FrameCompleteness.TranscriptCompletes | src/codex_serverops_mcp/ssh/framing.py:181-243 | every stream that begins with a valid transcript completes, with that transcript's result, whatever follows |
| FrameCompleteness.CompletionIff | src/codex_serverops_mcp/ssh/framing.py:164-243 | a stream completes with a result if and only if it begins with a valid transcript of that result |
| FrameCompleteness.PiecewiseCompletionIff | src/codex_serverops_mcp/ssh/framing.py:164-243 | the same if-and-only-if for a tame stream that arrives in any pieces |
| FrameRoundTrip.FrameRoundTrip | src/codex_serverops_mcp/ssh/framing.py:72-95 | what the wrapper's prints put on the terminal, with any noise before and anything after and any number of added carriage returns, parses back to the output's last bytes, the exact exit code, directory and truncation flag |
| FrameRoundTrip.PiecewiseRoundTrip | src/codex_serverops_mcp/ssh/framing.py:40-59 | the round trip however the stream is cut into reads |
| Decimal.ParsePrint | src/codex_serverops_mcp/ssh/framing.py:208-212 | an exit status printed with %s is read back, negative ones included |
| Decimal.ParseIff | src/codex_serverops_mcp/ssh/framing.py:208-212 | exactly an optional minus sign and at least one digit is read as a number, and as the number it writes |
| Decimal.ValueOfBoth | src/codex_serverops_mcp/files/patch.py:76-79 | decimal notation: what stands in front of k digits counts ten to the k times as much |
| TerminalText.PresentIsShown | src/codex_serverops_mcp/ssh/framing.py:231-243 | for all bytes: the output shown is what remains of their text, with carriage returns before a line feed dropped and every other one shown as a line end; no carriage return is ever shown |
| TerminalText.TextRemains | src/codex_serverops_mcp/ssh/framing.py:7-7 | of texts, control sequences and two-character escapes printed one after the other exactly the texts remain |
| TerminalText.UnfinishedStays | src/codex_serverops_mcp/ssh/framing.py:7-7 | a control sequence that is not finished stays, escape character included |
| TerminalText.LoneEscapeStays | src/codex_serverops_mcp/ssh/framing.py:7-7 | an escape character that starts no sequence stays, with what follows it |
| TerminalText.ProgressShown | src/codex_serverops_mcp/ssh/framing.py:236-236 | a progress line, text and carriage returns and text, is shown as lines; before a line feed the carriage returns count as one line end |
| TerminalText.CutReplaced | src/codex_serverops_mcp/ssh/framing.py:234-234 | a character cut short is shown as one replacement character and what follows is read from its own first byte on |
| TerminalText.ByteReplaced | src/codex_serverops_mcp/ssh/framing.py:234-234 | a byte that begins no character is shown as one replacement character |
| RingBuffer.TerminalRingBuffer.Append | src/codex_serverops_mcp/terminal/buffer.py:37-46 | the bounded buffer is the tail of the unbounded log, and its start cursor the length of what was dropped |
| RingBuffer.TerminalRingBuffer.Read | src/codex_serverops_mcp/terminal/buffer.py:67-72 | a read is a slice of the log, with the next cursor at its end and the drop flag exactly when the cursor lay before the oldest byte |
| RingBuffer.NextCursorBelow | src/codex_serverops_mcp/terminal/buffer.py:67-72 | a read's next cursor lies below the caller's if and only if that is past the end |
| RingBuffer.ReaderSeesLog | src/codex_serverops_mcp/terminal/buffer.py:53-72 | over every interleaving of arrivals and polls a reader that chains cursors gets slices in order, a drop flag exactly when it lagged by more than the capacity, and otherwise the whole log |
| RingBuffer.RunChained | src/codex_serverops_mcp/terminal/buffer.py:67-72 | chained reads never overlap nor go back, and every gap is flagged |
| RingBuffer.SeesLogIff | src/codex_serverops_mcp/terminal/buffer.py:53-72 | the reads joined are the log up to the cursor if and only if the reader never lagged by more than the capacity |
| RingBuffer.TailJoined | src/codex_serverops_mcp/terminal/buffer.py:67-72 | the same for any later part of a chain of reads, by their drop flags; with one set they are shorter |
| RingBuffer.ParserThroughBuffer | src/codex_serverops_mcp/worker/session.py:277-282 | a parser fed through the buffer by a reader that keeps up answers as on the log itself |
| LaggingReader.OutputLost | src/codex_serverops_mcp/worker/session.py:277-282 | a reader that lags completes a frame whose output lacks what the buffer dropped, not marked as truncated: the session does not look at the drop flag |
| SessionSpec.ReadsAreLogIff | src/codex_serverops_mcp/worker/session.py:277-282 | what a stretch of session calls read is what was printed meanwhile if and only if none of its reads has the drop flag set |
| Terminal.Terminal.WaitForData | src/codex_serverops_mcp/worker/session.py:277-282 | after any more printing, a session read is the slice of what was printed that the bounded buffer still has from the session's cursor on |
| PatchEngine.ApplyUnifiedPatch | src/codex_serverops_mcp/files/patch.py:23-61 | the loops with their cursor, counters and early errors compute the recursive specification of applying a patch, error kinds included |
| PatchEngine.ParseHunkLines | src/codex_serverops_mcp/files/patch.py:64-91 | the index-driven parser returns exactly the hunks of the specification, or its error |
| PatchEngine.NormalizeNoNewlineMarkers | src/codex_serverops_mcp/files/patch.py:94-106 | the in-place treatment of no-newline markers equals its specification, orphan markers and bad lines rejected |
| PatchEngine.ApplyHunkBody | src/codex_serverops_mcp/files/patch.py:37-56 | the loop over one hunk's lines adds, consumes and fails as specified |
| PatchMeaning.ApplyBodyIff | src/codex_serverops_mcp/files/patch.py:37-53 | a hunk body applies exactly when its old side stands at the index, and then adds its new side |
| PatchMeaning.ApplyHunkIff | src/codex_serverops_mcp/files/patch.py:31-57 | one hunk applies exactly when it is well counted, its target is not before the cursor, and its old side is there |
| PatchMeaning.ApplyHunksIff | src/codex_serverops_mcp/files/patch.py:30-60 | hunks turn the source into a result if and only if both are the same kept pieces woven with the old and the new sides, each in its stated place |
| PatchMeaning.ResultLength | src/codex_serverops_mcp/files/patch.py:55-60 | the result is longer by the sum of new counts minus old counts |
| PatchInverse.UndoIff | src/codex_serverops_mcp/files/patch.py:23-61 | for hunks whose starts agree, they lead from one text to another if and only if the swapped hunks lead back |
| PatchInverse.SwapNormalized | src/codex_serverops_mcp/files/patch.py:94-106 | no-newline markers keep their meaning when the two sides are swapped |
| PatchInverse.SwapTwice | src/codex_serverops_mcp/files/patch.py:14-20 | swapping the sides twice gives the hunks back |
| PatchInverse.WrongNewStart | src/codex_serverops_mcp/files/patch.py:31-33 | new starts are never read: a hunk with a wrong one applies, and its swap is a conflict |
| PatchInverse.SwapAppliesIff | src/codex_serverops_mcp/files/patch.py:30-60 | for hunks with any new starts, the swap applies to a text and gives another exactly when the two are the same kept pieces around new and old sides, in the places the new starts name |
| PatchInverse.UndoneInPlaceIff | src/codex_serverops_mcp/files/patch.py:30-60 | where hunks apply, their swap applies at the same places, and leads back, if and only if their starts agree |
| PatchPrinter.PatchRoundTrip | src/codex_serverops_mcp/files/patch.py:23-61 | for all texts and every edit script between them: printing the script as a diff with any git preamble, file names, blank lines and section headings, and applying it to the old text, gives the new text, unless the diff is longer than 131072 bytes or carries a NUL |
| PatchPrinter.PrintedHunksRead | src/codex_serverops_mcp/files/patch.py:64-91 | parsing inverts the printer for any number of hunks, whatever preamble lines and blank lines stand in front of them, between them and behind them, and with any section headings |
| PatchHeader.HeaderIff | src/codex_serverops_mcp/files/patch.py:8-10 | a line is a hunk header if and only if it is spelled like one: two ranges of decimal numbers, counts of one left out or not, and perhaps a section heading |
| PatchPrinter.HeaderFound | src/codex_serverops_mcp/files/patch.py:8-10 | every printed hunk header is read back, with the omitted count of one and any section heading |
| PatchPrinter.StrayRefused | src/codex_serverops_mcp/files/patch.py:70-75 | text that is no preamble line, not blank and no header is refused outside a hunk, after any preamble |
| PatchPrinter.NameTakenForLine | src/codex_serverops_mcp/files/patch.py:81-87 | a file's name line directly behind a hunk is taken for a deleted line of the hunk |
| PatchPrinter.OpsNormalized | src/codex_serverops_mcp/files/patch.py:94-106 | normalisation turns a printed body, markers included, back into its lines |
| PatchPrinter.PrintedScriptUndone | src/codex_serverops_mcp/files/patch.py:23-61 | the hunks read from a printed script, swapped, take the new text back to the old |
| PatchPrinter.EveryEditHasAScript | src/codex_serverops_mcp/files/patch.py:23-61 | any two texts have an edit script, so the round trip is about all of them |
| TextLines.SplitLinesJoin | src/codex_serverops_mcp/files/patch.py:28-28 | splitting keeps every character, and every piece but the last ends in a separator |
| TextLines.SplitJoined | src/codex_serverops_mcp/files/patch.py:65-65 | joined lines are split where they were joined |
| TextLines.SplitAreLines | src/codex_serverops_mcp/files/patch.py:28-28 | what splitting gives stays as it is when it is joined and split again |
| TextLines.LinesEndAt | src/codex_serverops_mcp/files/patch.py:28-28 | exactly the ten separators of Python's splitlines end a line of plain text |
| SessionState.OverForGood | src/codex_serverops_mcp/worker/state.py:24-74 | every path of allowed moves from a lost, failed or closed session stays over and ends within two moves |
| SessionState.SessionStateMachine.Transition | src/codex_serverops_mcp/worker/state.py:109-118 | a move is made exactly when the table allows it, and counted |
| SessionState.SessionStateMachine.BeginAuthentication | src/codex_serverops_mcp/worker/state.py:120-130 | authentication starts only while starting or executing, and remembers where to return |
| SessionState.SessionStateMachine.FinishAuthentication | src/codex_serverops_mcp/worker/state.py:132-140 | authentication returns to the state it came from |
| SessionState.SessionStateMachine.BeginClose | src/codex_serverops_mcp/worker/state.py:142-150 | closing is begun from every state but closed, once or again |
| SessionSpec.RunIsSafe | src/codex_serverops_mcp/worker/session.py:68-266 | in every run of calls and for every terminal behaviour: no call leaves a transient state, an unknown outcome means lost and a timeout ready; and from the first lost, failed or closed state no command, recovery script, raw input, interrupt or answer is written, but one exit line exactly if the first close finds the process still running |
| SessionSpec.FarewellAfterFailure | src/codex_serverops_mcp/worker/session.py:253-266 | a run in which that exit line follows raw input that a failed write may have left half delivered |
| Session.StatefulSshSession.FailThenClose | src/codex_serverops_mcp/worker/interactive.py:45-51 | the code does that whenever the write raises, the process is found running, and the session is closed while it runs |
| SessionSpec.GenuineFrame | src/codex_serverops_mcp/worker/session.py:185-235 | a result or a timeout is backed by a whole transcript of this call's own frame in what was read during the call |
| SessionProgress.FinishesInTime | src/codex_serverops_mcp/worker/session.py:163-208 | while the process runs, no write fails and prompts are answered: if a read begun before the deadline completes the frame, the call returns that frame's result and the session is ready |
| SessionProgress.FinishesInWorld | src/codex_serverops_mcp/worker/session.py:163-208 | in a world without trouble a command ends in its result as soon as what is printed at its first n polls completes the frame, when n polls of 250 ms fit into the timeout |
| SessionProgress.ReturnsInWorld | src/codex_serverops_mcp/worker/interactive.py:98-142 | the same for the way back from interactive use, which ends ready |
| SessionProgress.OpensIff | src/codex_serverops_mcp/worker/session.py:68-133 | a connection without trouble opens if and only if the shell's prompt is seen and the bootstrap's frame ends with exit code 0 |
| SessionSpec.RunGrows | src/codex_serverops_mcp/worker/session.py:268-282 | over a run what was read, written and answered only grows |
| Session.StatefulSshSession.Execute | src/codex_serverops_mcp/worker/session.py:135-243 | outcome, state, frame verdict, single delivery of the wrapper, the first prompt with this call's token answered and a second one interrupted once, and the time bound: the larger of the timeout and 10 ms per piece, the time spent answering, 200 ms and 5 s. An unknown outcome without trouble from the terminal means a broken frame or an unanswered interrupt; an exception means a write or an answer that failed |
| Session.StatefulSshSession.AwaitFrame | src/codex_serverops_mcp/worker/session.py:163-216 | the polling loop reads until the frame, the session or the deadline ends, the deadline moved only by time spent answering; without prompts its reads are what the world prints at its polls |
| Session.StatefulSshSession.Interrupt | src/codex_serverops_mcp/worker/session.py:216-235 | after a timeout the session is ready only if the same token's frame was completed by a live shell, and lost otherwise |
| Session.StatefulSshSession.WriteCommand | src/codex_serverops_mcp/worker/session.py:350-371 | a script is written in pieces of at most 512 characters that together are the script; a failed write leaves a front of it |
| Session.StatefulSshSession.HandlePrompt | src/codex_serverops_mcp/worker/session.py:283-308 | a sudo prompt with this call's token is answered the first time and interrupted the second; every other prompt is passed over; an answer that fails or is not given fails the session |
| Session.StatefulSshSession.ReadAndHandlePrompts | src/codex_serverops_mcp/worker/session.py:268-309 | one read through the buffer, and of the prompts in it the first with this call's token answered, none missed |
| Session.AuthenticationGate.Permit | src/codex_serverops_mcp/worker/session.py:409-423 | the gate permits once, interrupts exactly at the next prompt, and then does nothing |
| Session.StatefulSshSession.Open | src/codex_serverops_mcp/worker/session.py:68-133 | a session opens ready only with a bootstrap frame of exit code 0, and without trouble fails only if no prompt was seen in time, or the bootstrap's frame was broken, unsuccessful or late |
| Session.StatefulSshSession.InitializeShell | src/codex_serverops_mcp/worker/session.py:311-342 | the bootstrap command is written and its frame awaited |
| Session.StatefulSshSession.StartInteractive | src/codex_serverops_mcp/worker/interactive.py:39-56 | interactive use starts only from ready; exactly a write that raises fails it, and leaves it failed if the process still runs and lost if not |
| Session.StatefulSshSession.ReadInteractive | src/codex_serverops_mcp/worker/interactive.py:58-70 | a read finds the session interactive and shows what the buffer has from the caller's cursor on, with the next cursor and the drop flag, or loses the session |
| Session.StatefulSshSession.WriteInteractive | src/codex_serverops_mcp/worker/interactive.py:72-78 | input of 1 to 65536 bytes is written once, other input refused unwritten |
| Session.StatefulSshSession.CloseInteractive | src/codex_serverops_mcp/worker/interactive.py:98-142 | back to ready only with a completed frame of a fresh token from a live shell; lost, without trouble, only if the frame was broken or late |
| Session.StatefulSshSession.Close | src/codex_serverops_mcp/worker/session.py:253-266 | a session closes from every state, with one exit line if its process still runs and its process ended; a second close changes nothing |
| Session.StatefulSshSession.PerformAll | src/codex_serverops_mcp/worker/session.py:41-66 | every sequence of calls is a run in the sense of the safety theorem |
| RemoteCommand.FinishedCall | src/codex_serverops_mcp/worker/session.py:185-208 | a finished call on a shell that printed its frame returns exactly the command's output, status and directory |
| Prompts.PromptDetector.Feed | src/codex_serverops_mcp/ssh/prompts.py:52-93 | the history is as much of the text's end as it may be; a feed reports exactly the matches in it that end after what was reported of their kind, in text order, and leaves none of any kind unreported; the ends reported of a kind strictly increase (a match that grows is reported again) |
| Prompts.SortedEndsRise | src/codex_serverops_mcp/ssh/prompts.py:86-93 | sorting never puts a later match of a kind before an earlier one, so none is passed over |
| Prompts.SortSorts | src/codex_serverops_mcp/ssh/prompts.py:87-87 | the order of the candidates is sorted and a permutation |
| Outcomes.HopsAgree | src/codex_serverops_mcp/broker/outcomes.py:15-42 | both hops class every forwarded request alike and under the same code |
| Outcomes.EffectsAreUncertain | src/codex_serverops_mcp/broker/outcomes.py:15-42 | of the requests the broker knows exactly those that do not only read are uncertain, commands and terminal actions, edits and elevations each under their own code |
| Outcomes.SuccessIff | src/codex_serverops_mcp/broker/client.py:68-90 | a client is told of success exactly by an answer with its request's id and type |
| Outcomes.AnsweredIff | src/codex_serverops_mcp/broker/supervisor.py:52-69 | the broker takes for an answer exactly one with its request's id and type |
| Outcomes.UncertainCodesEnd | src/codex_serverops_mcp/broker/outcomes.py:15-42 | every uncertain code ends in outcome_unknown |
| Outcomes.UncertainIsNotUnavailable | src/codex_serverops_mcp/broker/client.py:92-105 | no uncertain code can be mistaken for an unavailable broker or a failed worker link |
| Outcomes.AnswerArrives | src/codex_serverops_mcp/broker/supervisor.py:52-69 | an undisturbed answer of the worker reaches the client unchanged through both verdicts |
| DeliveryProgress.UndisturbedDelivery | src/codex_serverops_mcp/broker/server.py:184-276 | from wherever nothing is under way, every request for a worker can go there and back: the worker is asked for just this, once, and the client is told its answer |
| DeliveryHandoff.EveryRun | src/codex_serverops_mcp/broker/client.py:47-105 | in every run of both hops, whatever is lost, late or dead: no request is handled twice; success means handled exactly once and answered by the worker, or a rediscovery that the broker answered itself and no worker handled; a handled command, edit, terminal or elevation action, and every other handled uncertain request, is told the worker's own answer or its uncertain code; a request refused by a closed client was never handled |
| DeliveryFinality.ToldForGood | src/codex_serverops_mcp/broker/client.py:92-105 | what a client was told at any moment holds for every later moment: a request reported as never sent, or refused under another code than its uncertain one, is never handled afterwards, and a success that is no rediscovery was handled by then |
| DeliveryHandoff.StepKeeps | src/codex_serverops_mcp/broker/server.py:119-155 | every step of clients, broker threads and workers keeps the protocol's invariant |
| DeliveryHandoff.SettledReply | src/codex_serverops_mcp/broker/supervisor.py:52-69 | what the broker makes of a worker's answer is true of the client's request |
| DeliverySteps.VerdictFits | src/codex_serverops_mcp/broker/client.py:65-90 | what a client makes of a true reply is true |
| DeliveryEnds.BrokerClient.Request | src/codex_serverops_mcp/broker/client.py:47-90 | a client's call sends its request at most once, judges what arrives for it, and gives the connection up without a usable answer |
| DeliveryEnds.WorkerLink.Request | src/codex_serverops_mcp/broker/supervisor.py:37-69 | the broker's call does the same towards the worker |
| DeliveryEnds.ServeConnection | src/codex_serverops_mcp/worker/process.py:82-124 | requests are handled in order, each once, each answered with its own id, and none after a stop, a failed reply or a status that could not be recorded |
| DeliveryEnds.ReplyIs | src/codex_serverops_mcp/worker/process.py:86-113 | a reply carries its request's id and the answer; an unforeseen failure is reported as an internal error and ends the worker |
| DeliveryEnds.RunWorker | src/codex_serverops_mcp/worker/process.py:67-128 | the first authenticated connection is served, to its end, and no other |
| SupervisorTable.RunMatched | src/codex_serverops_mcp/broker/supervisor.py:179-182 | over all interleavings every handle has a registry entry equal to its own record |
| SupervisorTable.AlwaysMatched | src/codex_serverops_mcp/broker/supervisor.py:86-90 | so it is in every run from the start |
| SupervisorTable.StepMatched | src/codex_serverops_mcp/broker/supervisor.py:228-238 | an update never fails for want of an entry, and a new session never finds its id taken |
| SupervisorTable.RefreshMarks | src/codex_serverops_mcp/broker/supervisor.py:281-287 | a refresh marks exactly the sessions of dead workers as lost, in both tables |
| SupervisorTable.StepLeavesNoZombie | src/codex_serverops_mcp/broker/supervisor.py:263-266 | an entry without handle is lost or being shut down after a step if and only if the step did not take away a handle whose record is not lost |
| SupervisorTable.FailureAloneIsClean | src/codex_serverops_mcp/broker/supervisor.py:216-221 | a failed request dealt with in one go keeps that |
| SupervisorTable.ZombieRun | src/codex_serverops_mcp/broker/supervisor.py:216-225 | a concrete interleaving breaks it: another thread's reply, ready, overwrites the recorded loss before the handle is taken away |
| SupervisorTable.ZombieForever | src/codex_serverops_mcp/broker/supervisor.py:240-248 | such an entry stays through every later run, and closing it always reports that the session does not exist |
| SupervisorTable.FinishFindsEntry | src/codex_serverops_mcp/broker/supervisor.py:240-261 | whatever runs between the two halves of a shutdown, the second finds the entry as the first left it, or gone; and gone if and only if the session was lost by then and another close of it came in between |
| SupervisorTable.FirstCloseLoses | src/codex_serverops_mcp/broker/supervisor.py:240-261 | a concrete run in which a ready worker dies and the first of two closes fails that way |
| Supervisor.WorkerSupervisor.UpdateRecordState | src/codex_serverops_mcp/broker/supervisor.py:228-238 | handle and entry change together, and only while the handle is the session's |
| Supervisor.WorkerSupervisor.RefreshDeadWorkers | src/codex_serverops_mcp/broker/supervisor.py:281-287 | exactly the sessions of dead workers are marked lost, in both tables |
| Supervisor.WorkerSupervisor.BeginShutdown | src/codex_serverops_mcp/broker/supervisor.py:240-248 | the handle is taken, or a lost entry removed, or the session does not exist |
| Supervisor.WorkerSupervisor.FinishShutdown | src/codex_serverops_mcp/broker/supervisor.py:254-261 | the entry is removed, or found gone |
| Supervisor.WorkerSupervisor.InvalidateHandle | src/codex_serverops_mcp/broker/supervisor.py:263-272 | the handle is taken away only while it is the session's |
| Supervisor.WorkerSupervisor.Publish | src/codex_serverops_mcp/broker/supervisor.py:179-182 | handle and entry appear together |
| Supervisor.WorkerSupervisor.Conclude | src/codex_serverops_mcp/broker/supervisor.py:214-226 | after a request the worker's state is recorded, an answer that names the state already recorded changes nothing, and a lost worker has no handle and a lost entry |
| Supervisor.SessionRegistry.Add | src/codex_serverops_mcp/broker/registry.py:14-18 | an id already present is refused |
| Supervisor.SessionRegistry.Replace | src/codex_serverops_mcp/broker/registry.py:27-31 | only a present record is replaced |
| Supervisor.SessionRegistry.Remove | src/codex_serverops_mcp/broker/registry.py:33-38 | the removed record is returned |
| Pipe.ReceivedInOrder | src/codex_serverops_mcp/ipc/connection.py:73-96 | messages found as frames at the front of the bytes are the first messages framed into them |
| Pipe.ReceivedClear | src/codex_serverops_mcp/ipc/connection.py:56-96 | when sends may fail after any byte on a connection that stays open, messages of less than 16 MiB found as frames are those before the first unfinished frame, in order; only if more was written after it can one more be read, and that is garbled |
| Pipe.OverUnfinished | src/codex_serverops_mcp/ipc/connection.py:158-171 | what is read over an unfinished frame, whatever sends fail after it, holds a byte that no text has or is the tail of a later message's length and a proper front of that message |
| Pipe.StretchOfParts | src/codex_serverops_mcp/ipc/connection.py:64-67 | any stretch of bytes left by whole and broken sends holds a zero byte or lies inside a single frame, past its first byte |
| Pipe.WholeIsNoText | src/codex_serverops_mcp/ipc/connection.py:20-20 | a whole message read from the tail of its own length on has a byte that no text has, since the length read would not fit otherwise |
| Pipe.EndToEnd | src/codex_serverops_mcp/ipc/connection.py:56-96 | of two ends: whatever is fragmented, late or broken, the messages one end received are, in order, messages the other end sent before its first unfinished frame, or one garbled one more if the other end went on writing |
| Pipe.OnlySentDelivered | src/codex_serverops_mcp/ipc/connection.py:36-54 | no forged message: a receiver that closes on what it cannot decode hands on only messages that were sent, in order, though failed senders go on using the connection |
| Pipe.ClearIsComing | src/codex_serverops_mcp/ipc/connection.py:56-71 | nothing sent whole is lost: all messages before the first unfinished frame are there to be received |
| Pipe.PipeConnection.ReceiveMessages | src/codex_serverops_mcp/broker/server.py:127-132 | receiving one message after the other gives all that are coming, in order, unless a read fails |
| Pipe.UnclosedSenderDesynchronises | src/codex_serverops_mcp/ipc/connection.py:158-171 | a sender that goes on after an unfinished frame can make the receiver read raw bytes that are no message sent |
| Pipe.LengthOfPrefix | src/codex_serverops_mcp/ipc/connection.py:20-20 | the four-byte length prefix is read back |
| Pipe.BigEndian | src/codex_serverops_mcp/ipc/connection.py:20-20 | the most significant byte of a length comes first |
| Pipe.PipeConnection.SendBytes | src/codex_serverops_mcp/ipc/connection.py:56-71 | on any connection a message is written whole as one frame, or the send fails after any part of it and the connection stays open, and that only when a write failed or came to a halt; empty, overlong and closed sends write nothing |
| Pipe.PipeConnection.ReceiveBytes | src/codex_serverops_mcp/ipc/connection.py:73-96 | the message at the front of what is left is returned whole; or the connection is closed, and that only when it was closed, a read failed, or there is no message of the allowed length |
| Pipe.PipeConnection.Receive | src/codex_serverops_mcp/ipc/connection.py:36-54 | the next message is returned if it decodes, and anything else closes the connection |
| Pipe.PipeConnection.ReadExact | src/codex_serverops_mcp/ipc/connection.py:114-139 | exactly the bytes asked for, from as many reads as it takes, or nothing when a read fails or there are too few |
| Base64.DecodeEncoded | src/codex_serverops_mcp/files/wire.py:93-100 | decoding what was encoded is the identity on all byte strings |
| Base64.LettersOfTable | src/codex_serverops_mcp/files/wire.py:93-100 | the letters are those of the standard's table, and no other character is one |
| Base64.GroupBits | src/codex_serverops_mcp/files/wire.py:93-100 | the four digits of a group are its 24 bits, six at a time |
| Base64.DecodedShape | src/codex_serverops_mcp/files/wire.py:93-100 | what decodes has groups of four characters: letters, and at most two of padding at the end |
| Wire.ParseFileOutput | src/codex_serverops_mcp/files/wire.py:60-90 | the parser that fills its dictionary row by row computes the specification of an answer, errors included |
| Wire.GroupedUnder | src/codex_serverops_mcp/files/wire.py:76-84 | the dictionary holds all rows, in order under each key, and no others |
| Wire.FileRoundTrip | src/codex_serverops_mcp/files/shell_protocol.py:24-51 | what a script prints, after any lines without the begin marker and with carriage returns anywhere, parses back to its rows, judged by the status row |
| Wire.RowParsed | src/codex_serverops_mcp/files/shell_protocol.py:24-38 | every printed row with a valid key and any bytes in its cells is read back |
| Wire.ReadIsSound | src/codex_serverops_mcp/files/wire.py:76-84 | only rows with a valid key and at least one cell are read |
| Wire.AnswersRead | src/codex_serverops_mcp/files/wire.py:85-90 | an ok status gives the rows, an error status the remote code and message |
| Wire.StatusRefused | src/codex_serverops_mcp/files/wire.py:85-90 | an answer without exactly one status, or with another status, is refused |
| Wire.ReturnsDropped | src/codex_serverops_mcp/files/wire.py:65-65 | the two replacements drop every carriage return |
| Wire.OnlyReturnsDropped | src/codex_serverops_mcp/files/wire.py:65-65 | and nothing else |
| RemoteCommand.RowsArrive | src/codex_serverops_mcp/files/wire.py:60-90 | rows printed remotely, passed through any number of terminals, framed, cut into any reads and completed are exactly the rows the caller gets |
| RemoteCommand.PresentTranslated | src/codex_serverops_mcp/ssh/framing.py:234-236 | the clean-up of line ends undoes what the terminals added |
| RemoteText.CutRead | src/codex_serverops_mcp/files/service.py:357-365 | plain text cut after any number of bytes reads as the longest front of characters that fits, and is refused if it was not to be cut |
| RemoteText.ReadIsThere | src/codex_serverops_mcp/files/service.py:357-365 | any text read is the whole content, or its front when it was cut; no forbidden control byte is let through |
| RemoteText.ReadIff | src/codex_serverops_mcp/files/service.py:357-365 | content is taken for binary exactly if it holds a byte that no text holds, and is otherwise read exactly if it decodes, but for a cut end of truncated content |
| RemoteText.TruncateUtf8 | src/codex_serverops_mcp/security/redaction.py:76-88 | a preview stays within its limit and shows the longest front of characters that leaves room for the ellipsis |
| Utf8.DecodeCut | src/codex_serverops_mcp/files/service.py:360-364 | cutting encoded text decodes to its whole characters or stops exactly at the cut character, reported as an unexpected end |
| Utf8.EncodeDecoded | src/codex_serverops_mcp/files/service.py:361-361 | bytes that decode are the encoding of the text they decode to |
| Utf8.DecodeEncoded | src/codex_serverops_mcp/files/wire.py:103-105 | encoded text decodes to itself |
| Utf8.CharacterBits | src/codex_serverops_mcp/files/wire.py:103-105 | a character's bits stand in its one to four bytes as the standard says |
| KeySwitch.ProfileSetup.InstallPublicKeyAndSwitch | src/codex_serverops_mcp/setup/operations.py:139-204 | with other programs writing between any two steps, outcome, hidden rollback and file are those of the specification function, and no write replaces content that was not loaded or written by the call |
| KeySwitch.ProfileSetup.RollbackLocalProfile | src/codex_serverops_mcp/setup/operations.py:262-274 | the rollback does what the specification says and replaces only what the call owns |
| KeySwitch.ProfileSetup.SwitchToKey | src/codex_serverops_mcp/setup/operations.py:165-172 | the guarded save, the test's load and the last check do what the specification says, over owned content only |
| KeySwitch.ReportsAreTrue | src/codex_serverops_mcp/setup/operations.py:139-204 | a reported switch is the own key profile in the file after the last check; a rollback restores the original configuration; a concurrent change means the file is not the content last saved; a failed rollback leaves other programs' content or one of the call's own; a rejected call wrote nothing unless its first save was late |
| KeySwitch.UnreadIff | src/codex_serverops_mcp/setup/operations.py:304-319 | a request is turned down before anything is read exactly if the two profiles do not belong together |
| KeySwitch.ConcurrentChangeIff | src/codex_serverops_mcp/setup/operations.py:268-270 | the change reported is another program's, unless the second save raised after replacing the file and nobody wrote since: exactly then it is the call's own key profile |
| KeySwitch.LateSaveReported | src/codex_serverops_mcp/config/repository.py:164-166 | an undisturbed call whose second save raises late reports a concurrent change that nobody made |
| KeySwitch.RejectedLeavesIff | src/codex_serverops_mcp/setup/operations.py:148-158 | a call is rejected and yet leaves a write of its own, the staged password profile, if and only if its first save raised after replacing the file: that save stands outside the part that rolls back |
| KeySwitch.StagedProfileLeft | src/codex_serverops_mcp/setup/operations.py:155-158 | an undisturbed call on an empty file that ends so |
| KeySwitch.RestoredThoughFailedIff | src/codex_serverops_mcp/setup/operations.py:267-273 | a rollback reported as failed has put the original back if and only if its save raised after replacing the file, for every request that changes the profile |
| KeySwitch.RestoredThoughFailed | src/codex_serverops_mcp/setup/operations.py:271-273 | an undisturbed call that reports a failed rollback over the restored original |
| KeySwitch.LayoutKeptIff | src/codex_serverops_mcp/setup/operations.py:271-271 | a rollback restores the file itself exactly when it was laid out as the encoder would write it |
| KeySwitch.LayoutLost | src/codex_serverops_mcp/setup/operations.py:271-271 | a rollback that changes the layout of the file |
| KeySwitch.UndisturbedCall | src/codex_serverops_mcp/setup/operations.py:148-189 | undisturbed, a valid request ends in the switch when the key is installed, works and is recorded, and otherwise in the original configuration with the error that belongs to it |
| KeySwitch.RollbackHidden | src/codex_serverops_mcp/setup/operations.py:196-204 | when the installation itself fails the caller gets that error alone: two calls that look alike to it leave the original or the staged password profile |
| KeySwitch.OwnWriteKeepsOwning | src/codex_serverops_mcp/setup/operations.py:155-167 | guarded saves chain: each replaces what the one before it wrote |
| ConfigRepository.Repository.Save | src/codex_serverops_mcp/config/repository.py:86-95 | the file is replaced exactly if it can be read and is the expected one, even by a save that then raises |
| ConfigRepository.Repository.Load | src/codex_serverops_mcp/config/repository.py:48-50 | a snapshot is the configuration and the content of one moment |
| Listener.EveryHandleOnce | src/codex_serverops_mcp/ipc/named_pipe.py:53-96 | in every interleaving of accept, failure and close: no handle is closed twice, none handed to a connection is closed by the listener, and after close and its threads every handle was handed over or closed, if and only if no new instance was dropped on a failed security check |
| Listener.StepInv | src/codex_serverops_mcp/ipc/named_pipe.py:53-96 | every handle is in at most one place after every step |
| Listener.UnownedIff | src/codex_serverops_mcp/ipc/named_pipe.py:98-117 | a handle comes to be owned by no one in a step if and only if the step makes it as a new instance, on an open listener with nothing pending, whose security check then raises |
| Listener.UnsafeInstanceUnowned | src/codex_serverops_mcp/ipc/named_pipe.py:98-117 | a run of three steps in which that happens |
| Listener.NamedPipeListener.BeginAccept | src/codex_serverops_mcp/ipc/named_pipe.py:54-60 | the pending handle or a new one becomes the one being connected |
| Listener.NamedPipeListener.FinishAccept | src/codex_serverops_mcp/ipc/named_pipe.py:68-74 | a handle is handed over exactly when no close came first |
| Listener.NamedPipeListener.AbandonAccept | src/codex_serverops_mcp/ipc/named_pipe.py:75-83 | after an exception the accepting thread closes the handle only if it is still the listener's |
| Listener.NamedPipeListener.Close | src/codex_serverops_mcp/ipc/named_pipe.py:85-96 | a close takes what the listener still owns, a second one nothing |

## Left out

- Win32 pipes, ConPTY, process start, pipe security descriptors and task scheduling: foreign calls; pipes, terminals and processes are oracles that may do anything.
- What Bash does with the wrapper scripts: the scripts are abstract texts; only the bytes their prints put on the terminal are modelled.
- The health condition of the shell (`[[ ... ]]` over `declare -p`): part of those scripts.
- The pipe handshake and the secrecy of tokens: cryptography; tokens and message ids are assumed to be new, and hashes to be injective.
- Prompt and redaction patterns: regular expressions; the detector is proved for every matcher that searches left to right without overlaps.
- Digits and letters outside ASCII: `\d` and `isalnum` accept more in Python; the model's digits, tokens and file keys are ASCII.
- The 4300-digit limit of Python's `int`: an exit status or hunk number longer than that would raise.
- The parser's state after it raised: only that it stays well formed.
- Blocking and waking inside `wait_for_data`: a read is one observation. The session's cursor is kept with the terminal's record of its reads.
- The listener's first instance: a security check that raises in the constructor leaves no listener.
- Time: whole milliseconds, every read that is given time takes at least one, and writes take none; the bound on a call counts only its sleeps, reads and answers.
- Calls to `interrupt` while a command runs, and calls from a second thread: the worker serves one call at a time. A close is modelled from every state, but not between two steps of another call.
- `terminate` and `close` of a terminal are taken not to raise.
- Terminal resize, status and interactive interrupt: no state beyond the check that the session is interactive.
- Transport failures other than IPC errors: a raw Win32 error would leave the broker as an internal error instead of an uncertain code.
- Requests that the broker carries out itself (create, open, close, shutdown, root sessions): in the delivery model it may answer them in any way.
- `rediscover`: the broker may pass it on or answer it itself in any state; that it does the latter only for a lost record is not modelled.
- Metadata that the broker merges into a worker's answer, and JSON itself.
- Pipe.OnlySentDelivered: takes two facts about JSON over UTF-8 as given: no message holds a null or a byte above 0xFC, and none is another message cut short, also behind up to three other bytes.
- The maximum of 262144 bytes for a message: the pipe's theorems hold for all messages of less than 16 MiB less four bytes.
- `WorkerSupervisor.start` before a session is published, and the clean-up when it fails.
- DeliveryHandoff.EveryRun: safety only; that a request is answered when nothing goes wrong is stated by `DeliveryProgress.UndisturbedDelivery`.
- SessionProgress.FinishesInWorld: for calls without authentication, whose polls are at fixed moments; `FinishesInTime` is about all calls, in terms of what was read.
- Pipe.EndToEnd: takes the bytes that one end reads to be a front part of those the other wrote, which is what a byte-mode pipe provides.
- Strict base64 in Python also rejects some texts for other reasons than the four-character groups; trailing bits of a padded group are ignored in both.
- RemoteCommand.RowsArrive: takes as given that no output line looks like a marker of the command's token, which is random.
- FrameRoundTrip.FrameRoundTrip: output that ends in a carriage return is excluded, since the parser cannot tell it from the terminal's own.
- TOML and its migration: a file is the configuration it decodes to and its layout; initialisation and migration only wrap the same writes.
- Audit records, presentation of profiles, installer, doctor, bootstrap and set-up pages: no property beyond their calls.
- Remote edits made of several scripts (`_apply_patch` in the file service): each script is one command, covered by the session.

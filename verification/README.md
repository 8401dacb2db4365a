# Manyfold protocols and decoders, in Dafny

A model of the stateful and byte-level cores of the repository, with proofs. Each `.dfy` file is one
component. Where the source mutates variables step by step, the file holds a state machine (`State`,
`Event`, `Enabled`, `Step`, `Run`), a class with the source's own fields whose methods are proved to make
exactly the machine's step, and theorems about every run of the machine. Where the source is an algorithm
over data, the file holds the loop, the function it is proved equal to, and theorems about that function.

`dafny verify dfyconfig.toml` checks everything.

| file | component |
|---|---|
| `UpstreamCancel.dfy` | the pump, abort listener, detached harvest and timer of `withUpstreamCancel` |
| `Sse.dfy`, `Ndjson.dfy`, `ChatFrames.dfy` | the incremental stream decoders, over any chunking (`Splitting.dfy`, `JsStrings.dfy`: shared facts about strings) |
| `TextAccumulator.dfy` | the A2A text accumulator as a fold over its event log (`OrderedMap.dfy`: insertion-ordered maps) |
| `Tar.dfy` | the tar header reader and archive scan of the self-update |
| `ProtectedWrite.dfy`, `RenameRetry.dfy`, `ExecutableSwap.dfy` | crash-safe file replacement on a disk that loses and tears what is not synced |
| `ProcessExit.dfy` | the API process's exit as a timed automaton |
| `QuotaAcks.dfy` | the bounded table of quota receipts in the SDK's host-status stream |
| `ScratchDb.dfy` | any number of interleaved scratch-database lifecycles |
| `Stylesheets.dfy` | the depth-first walk over a possibly cyclic chunk manifest |
| `ErrorLimiter.dfy` | the windowed browser-error limiter |
| `TurnUsage.dfy` | the per-turn token accounting |
| `Rrule.dfy` | printing and reading the schedule presets' rules |

## Promises that hold under a condition

In each of these the code is kept as it is, and the lemmas give a case and the exact condition. Some go
against a comment or a standard; others only limit how far a natural reading of the code can be trusted.

- An abort that precedes the construction of the cancellable stream is acted on if and only if the
  consumer asks for an item (`UpstreamCancel.EarlierAbortNeedsPull`).
- After the harvest window has elapsed the harvest may still start one more read
  (`UpstreamCancel.ReadAfterResolution` says exactly when). Nobody awaits that read, so that its failure
  would be an unhandled rejection (`UnawaitedIff`); `UnawaitedReadHappens` gives a run from the start.
- The chat loop's frames are independent of chunking if and only if clearing the text of every CR that
  leads up to an LF changes none of the frames that one normalisation gives (`ChatFrames.FramesIff`). A
  text without CR CR LF meets this (`NoCrCrLfIsSettled`); two `data:` lines with a CR CR LF after the first
  do not, and are one event or two depending on the cut (`CutChangesPayloads`). The loop's whole state, its
  retained buffer included, is independent of chunking exactly without CR CR LF (`ChunkingIsIrrelevantIff`).
  Chunks may decode to nothing, as one that ends inside a character does; the "only if" of `FramesIff` uses them.
- The end of an SSE stream emits what the standard would discard, unless the text ends in a line terminator,
  or in a CR with no event pending (`Sse.NothingUnterminatedIff`); an unterminated last line becomes data,
  whatever field it names (`Sse.UnterminatedLineIsData`).
- That all scratch-database calls have ended without a failed drop is not enough for the server to be back
  where it was: a CREATE that took effect while its answer was lost leaks (`ScratchDb.LostCreateLeaks`). With no failed
  drop the server is back exactly if there was no such CREATE (`ScratchDb.BackUnlessCreateWasLost`), in
  general exactly if every CREATE that ran was acknowledged and its DROP ran (`ScratchDb.BackToInitialIff`).
- A finished protected write can be undone by a crash, because the directory is never synced; it is
  undone whole (`ProtectedWrite.RenameCanBeUndone`, `CrashRewinds`).
- A turn that wrote nothing is billed the previous turn's usage exactly when its prompt occurs in the
  last user message (`TurnUsage.EveryUsageOnceIff`, `SilentCharge`; `SilentTurnIsBilledTwice` is a case).

## Model

| member | source | states |
|---|---|---|
| UpstreamCancel.StepPreserves | packages/external-providers/src/upstream-cancel.ts:56-178 | Every step of pump, listener, harvest, timer, source and consumer keeps the invariant that ties reads, listener, ids, effects and the window together. |
| UpstreamCancel.ResolvedAtMostOnce | packages/external-providers/src/upstream-cancel.ts:56-67 | In every interleaving `cancelUpstream` and `skipped` together happen at most once, the upstream is aborted exactly when resolved, the source closed at most once. |
| UpstreamCancel.CancelNamesFirstId | packages/external-providers/src/upstream-cancel.ts:87-106 | A cancel names the first non-null id in source order, whether pump or harvest read it. |
| UpstreamCancel.OneReadOutstanding | packages/external-providers/src/upstream-cancel.ts:88-97 | Pump and harvest never have two source reads outstanding together; the consumer gets a prefix of the source. |
| UpstreamCancel.NoEarlyTeardown | packages/external-providers/src/upstream-cancel.ts:77-128 | An abort before the consumer is done with a live stream, none of whose items handed over had an id, never leads to an upstream abort before an id, the end, a failure, or the whole window. |
| UpstreamCancel.SkipsAreHonest | packages/external-providers/src/upstream-cancel.ts:80-106 | In every run a skip for want of an id is recorded only if the source ended or failed without ever naming one, and the window's skip only once the window is over. |
| UpstreamCancel.HarvestReadsOn | packages/external-providers/src/upstream-cancel.ts:85-98 | In every run, until something is recorded a detached stream has a read outstanding that the harvest waits for, or the harvest can go on. |
| UpstreamCancel.HarvestMovesOn | packages/external-providers/src/upstream-cancel.ts:89-108 | Each time the harvest goes on it is over, or waits for the next read, newly started: it never looks at a read twice. |
| UpstreamCancel.WorkIsUsedUp | packages/external-providers/src/upstream-cancel.ts:85-178 | Ranking over pending reads and the timer: every step of the program's own lowers it, none from outside raises it by more than two. |
| UpstreamCancel.OwnStepsAreBounded | packages/external-providers/src/upstream-cancel.ts:85-178 | No run spins: the program's own steps are bounded by twice those from outside. |
| UpstreamCancel.ComesToRest | packages/external-providers/src/upstream-cancel.ts:85-178 | From every state the program's own steps lead to rest, within the rank. |
| UpstreamCancel.ArrivedIdIsRecorded | packages/external-providers/src/upstream-cancel.ts:87-105 | From every detached state an id that has arrived is cancelled within the steps at hand, unless the window was over. |
| UpstreamCancel.HarvestedIdIsCancelled | packages/external-providers/src/upstream-cancel.ts:87-105 | In every run an id that has reached a detached stream is cancelled by the time the harvest has nothing left to take, unless the window was over first. |
| UpstreamCancel.IdEndsHarvest | packages/external-providers/src/upstream-cancel.ts:92-105 | The step at which the harvest comes to an id records it at once, if nothing was recorded before. |
| UpstreamCancel.SourceIsClosed | packages/external-providers/src/upstream-cancel.ts:70-74 | The source is closed exactly once: by the pump that read it if no harvest took over, else by the harvest once it is over and never before. |
| UpstreamCancel.AbortEndsTheWait | packages/external-providers/src/upstream-cancel.ts:134-166 | After the abort the consumer waits for no read: the pump can go on at once and ends, at the latest after the one item already settled. |
| UpstreamCancel.AbortEndsCleanly | packages/external-providers/src/upstream-cancel.ts:134-140 | An abort over a pending read, even one that has settled but not reached the pump, ends the iteration without an error or a further item. |
| UpstreamCancel.ErrorIsTheSources | packages/external-providers/src/upstream-cancel.ts:162-177 | The consumer sees an error only if the read after the items handed over failed. |
| UpstreamCancel.FailureIsShown | packages/external-providers/src/upstream-cancel.ts:142-148 | A failure that reaches the pump is shown, and nothing else is shown as one. |
| UpstreamCancel.PumpTakes | packages/external-providers/src/upstream-cancel.ts:162-171 | A read that reaches the pump ends the iteration cleanly if and only if it is the end of the source, and is handed over if and only if it is an item; with it the first id so far is known. |
| UpstreamCancel.HandedAreItems | packages/external-providers/src/upstream-cancel.ts:167-171 | In every run all that the consumer was handed are items of the source, in order. |
| UpstreamCancel.PullReads | packages/external-providers/src/upstream-cancel.ts:152-162 | A request for an item starts exactly the next read, or ends the iteration cleanly if the signal is aborted. |
| UpstreamCancel.ReturnEnds | packages/external-providers/src/upstream-cancel.ts:173-177 | Stopping early ends the pump cleanly and closes a source that it read and no harvest has. |
| UpstreamCancel.AbortedLiveStreamResolves | packages/external-providers/src/upstream-cancel.ts:114-128 | An abort before the consumer is done with a live stream leads to exactly one cancel or skip by the end of the window, at once with the id if an item handed over had one; until then the window's timer stays armed. |
| UpstreamCancel.HarvestRankDecreases | packages/external-providers/src/upstream-cancel.ts:80-84 | The timer's ranking: no step moves an unresolved harvest's end away, each tick brings it closer, and at zero the timer can fire and resolves it. |
| UpstreamCancel.SilentHarvestIsSkipped | packages/external-providers/src/upstream-cancel.ts:80-83 | From any unresolved harvest the clock alone leads to the recorded `harvest_window_elapsed` skip. |
| UpstreamCancel.NothingStartsAfterAbort | packages/external-providers/src/upstream-cancel.ts:120-166 | After the abort the pump starts no read and hands over at most the one item already settled; if the upstream was never live, nobody ever reads and nothing is recorded. |
| UpstreamCancel.NeverLiveNeverRead | packages/external-providers/src/upstream-cancel.ts:120-126 | An abort before the first read of a lazy upstream: nothing is ever read, cancelled or skipped. |
| UpstreamCancel.ReadAfterResolution | packages/external-providers/src/upstream-cancel.ts:89-98 | Once resolved, a further read starts if and only if the harvest was waiting for an item that carries no id, and then just one. |
| UpstreamCancel.ReadAfterWindow | packages/external-providers/src/upstream-cancel.ts:80-98 | A case of it: the window elapses over a read in flight, which then delivers an item without an id. |
| UpstreamCancel.UnawaitedIff | packages/external-providers/src/upstream-cancel.ts:88-98 | A read that nobody awaits, whose failure would be unhandled, arises from exactly one step: the harvest starting its next read when the outcome is already recorded. |
| UpstreamCancel.UnawaitedWasStarted | packages/external-providers/src/upstream-cancel.ts:88-98 | In every run such a read goes back to that step. |
| UpstreamCancel.UnawaitedReadHappens | packages/external-providers/src/upstream-cancel.ts:80-98 | From the start, with any window, a run that leaves such a read. |
| UpstreamCancel.EarlierAbortNeedsPull | packages/external-providers/src/upstream-cancel.ts:141-159 | An abort before the listener was registered is acted on if and only if the consumer asks for an item. |
| UpstreamCancel.CancellableStream.SendCancel | packages/external-providers/src/upstream-cancel.ts:56-61 | Makes the machine's cancel: once, only with a known id. |
| UpstreamCancel.CancellableStream.Skip | packages/external-providers/src/upstream-cancel.ts:62-67 | Makes the machine's skip: once, with its reason. |
| UpstreamCancel.CancellableStream.BeginHarvest | packages/external-providers/src/upstream-cancel.ts:77-90 | Detaches, arms the window's timer and takes over the read in flight, or starts one. |
| UpstreamCancel.CancellableStream.OnCallerAbort | packages/external-providers/src/upstream-cancel.ts:114-128 | Cancels, gives up silently or harvests, and does nothing the second time. |
| UpstreamCancel.CancellableStream.FireAbort | packages/external-providers/src/upstream-cancel.ts:134-141 | Wakes the pump before the abort is handled; nothing happens once the listener is gone. |
| UpstreamCancel.CancellableStream.PullItem | packages/external-providers/src/upstream-cancel.ts:152-162 | The top of the pump's loop: handle an earlier abort, or start the next read. |
| UpstreamCancel.CancellableStream.ContinuePump | packages/external-providers/src/upstream-cancel.ts:162-177 | The pump after its await: abort, end, failure, or an item that may bring the id. |
| UpstreamCancel.CancellableStream.ReturnEarly | packages/external-providers/src/upstream-cancel.ts:173-177 | The consumer returns; before the first pull the `finally` block is skipped. |
| UpstreamCancel.CancellableStream.ContinueHarvest | packages/external-providers/src/upstream-cancel.ts:89-107 | The harvest after its await, up to the next one or to its cancel or skip. |
| UpstreamCancel.CancellableStream.FireTimer | packages/external-providers/src/upstream-cancel.ts:80-83 | The window's end skips unless already resolved. |
| Sse.ChunkingIsIrrelevant | packages/a2a/src/sse.ts:31-64 | Two chunkings of one text give the same events. |
| Sse.AbortYieldsPrefix | packages/a2a/src/sse.ts:31-32 | Stopping on an abort at any chunk yields a prefix of the full stream's events. |
| Sse.RoundTrip | packages/a2a/src/sse.ts:19-57 | Well-formed events printed as field lines and a blank line (section 9.2.6 of the WHATWG HTML Standard) come back from any chunking. |
| Sse.RoundTripIff | packages/a2a/src/sse.ts:19-57 | An event survives printing and parsing if and only if it is well formed. |
| Sse.UnterminatedLineIsData | packages/a2a/src/sse.ts:58-64 | On every stream with an unterminated last line, exactly one more event follows, whose data are the pending data lines and that line as it stands. |
| Sse.NothingUnterminatedIff | packages/a2a/src/sse.ts:58-64 | The end adds no event exactly if the text ends in a line terminator, or in a CR with no event pending. |
| Sse.UnterminatedText | packages/a2a/src/sse.ts:31-64 | The events of any chunking, in terms of the text's terminated lines and its last one. |
| Sse.SseStream.Flush | packages/a2a/src/sse.ts:19-30 | Emits an event if a name or data was seen, and clears the fields then only. |
| Sse.SseStream.TakeLine | packages/a2a/src/sse.ts:36-55 | Handles one line as the specification's line step: blank, comment, event, data, id, other. |
| Sse.LineForms | packages/a2a/src/sse.ts:45-55 | A colon splits name and value, with or without one space after it; with no colon the value is empty. |
| Sse.FieldIsSet | packages/a2a/src/sse.ts:53-55 | `event` and `id` overwrite, `data` joins, every other field is ignored. |
| Sse.LineEnds | packages/a2a/src/sse.ts:38-44 | One CR at the end of a line goes; a line that starts with a colon is a comment. |
| Sse.BlankLine | packages/a2a/src/sse.ts:19-30 | A blank line dispatches what is pending under its name or `message`, and forgets it; nothing pending, nothing. |
| Sse.SseStream.Feed | packages/a2a/src/sse.ts:33-56 | The in-place line loop equals splitting retained buffer and chunk at once. |
| Sse.ParseStream | packages/a2a/src/sse.ts:10-65 | The generator equals the whole-stream specification, aborted or not. |
| Ndjson.ReadStream | packages/sdk/src/client.ts:2039-2061 | For every chunking the loop's events and outcome are those of the whole text split at once, up to the first line that throws. |
| Ndjson.OutcomeOfEvents | packages/sdk/src/client.ts:2039-2061 | The first line that throws, unparsable or `null`, wins over all; else any error event wins over any completion, and the last of each decides. |
| Ndjson.EventsAreTheLines | packages/sdk/src/client.ts:2039-2057 | The events are what the lines parse to, blanks around them and blank lines left out, up to the first line that throws. |
| Ndjson.RoundTrip | packages/sdk/src/client.ts:2523-2541 | JSON lines printed one per line are read back event by event. |
| Ndjson.LastTerminatorIsOptional | packages/sdk/src/client.ts:2057 | Whether the last line is terminated makes no difference. |
| JsStrings.TrimIsExact | packages/sdk/src/client.ts:2052-2057 | Trimming a line takes off white space only, and all of it at both ends. |
| ChatFrames.ChunksDoNotMatter | packages/sdk/src/client.ts:1876-1885 | On a stream without CR CR LF the loop ends with the frames and the buffer that the whole text gives at once. |
| ChatFrames.FramesIff | packages/sdk/src/client.ts:1876-1885 | The frames dispatched are the same under every chunking if and only if clearing every CR that leads up to an LF changes no frame of the once-normalised text. |
| ChatFrames.CutChangesPayloads | packages/sdk/src/client.ts:1876-1885 | Any two `data:` lines with a CR CR LF after the first: cut behind it two events, uncut one. |
| ChatFrames.NoCrCrLfIsSettled | packages/sdk/src/client.ts:1876-1885 | Streams without CR CR LF meet that condition. |
| ChatFrames.EmptyChunksMatter | packages/sdk/src/client.ts:1876-1885 | LF CR CR LF is not settled, but only chunks that decode to nothing can make it yield a frame. |
| ChatFrames.ChunkingIsIrrelevantIff | packages/sdk/src/client.ts:1876-1885 | The loop's whole state, frames and retained buffer, is independent of chunking if and only if the stream has no CR CR LF. |
| ChatFrames.RoundTrip | packages/sdk/src/client.ts:1876-1908 | Payloads printed as `data:` frames with LF or CRLF line ends come back whole under any chunking. |
| ChatFrames.DataOfLine | packages/sdk/src/client.ts:1898-1901 | A `data:` line gives what follows less one space, any other line nothing. |
| ChatFrames.PayloadIff | packages/sdk/src/client.ts:1898-1902 | A frame has a payload exactly if it has a data line. |
| ChatFrames.EventsArePayloads | packages/sdk/src/client.ts:1881-1883 | What is yielded is what the payloads parse to, in order, those that do not parse left out. |
| ChatFrames.ChatStream.Feed | packages/sdk/src/client.ts:1876-1885 | The buffer is normalised again and cut in place; frames without data or whose data does not parse yield nothing. |
| ChatFrames.ReadChat | packages/sdk/src/client.ts:1869-1886 | Under any chunking exactly the events of the whole text's complete frames, wherever the frames do not depend on the cut, so on every stream without CR CR LF. |
| ChatFrames.DispatchBuffered | packages/sdk/src/client.ts:1810-1819 | The inner loop dispatches the next frames of the whole text, stopping on an abort. |
| ChatFrames.ReadHostStatus | packages/sdk/src/client.ts:1804-1820 | The frames dispatched under any chunking are those of the whole text, or a prefix of them on an abort. |
| TextAccumulator.EntriesFollowLog | packages/a2a/src/text.ts:10-47 | The entries are, in order of first appearance, what the log wrote to each key since its last write that is no append. |
| TextAccumulator.TextFollowsLog | packages/a2a/src/text.ts:49-51 | `text()` joins the non-empty ones of these contents in order of first appearance. |
| TextAccumulator.OtherEntriesUntouched | packages/a2a/src/text.ts:6-33 | An event leaves every entry it does not write as it was. |
| TextAccumulator.EventWrites | packages/a2a/src/text.ts:10-33 | What each kind of event writes, and which of them append. |
| TextAccumulator.SnapshotWritesEach | packages/a2a/src/text.ts:22-27 | A task snapshot overwrites each of its artifacts, in order. |
| TextAccumulator.StatusWritesIff | packages/a2a/src/text.ts:34-45 | A status writes its message exactly if it asks for input or authorisation and has one. |
| TextAccumulator.TextOfParts | packages/a2a/src/text.ts:3-4 | The text of parts is that of its text parts, put together. |
| TextAccumulator.A2aTextAccumulator.Apply | packages/a2a/src/text.ts:10-47 | The map after an event is the fold of the event's writes, in order; the result is its text. |
| TextAccumulator.Accumulate | packages/a2a/src/text.ts:7-52 | A whole stream gives the text of its whole write log. |
| Tar.RoundTrip | apps/cli/src/self-update.ts:95-137 | On any archive of well-formed entries ("ustar Interchange Format", pax utility, IEEE Std 1003.1) and any trailer, extraction is the payload of the first regular entry with the binary's path, or the matching error. |
| Tar.ReachedInside | apps/cli/src/self-update.ts:104-135 | Every header the scan reaches lies on a block boundary inside the archive. |
| Tar.TamperingIsRejected | apps/cli/src/self-update.ts:76-93 | Changing any one byte outside the checksum field of a header the scan reaches makes extraction fail with the checksum error. |
| Tar.TamperedHeader | apps/cli/src/self-update.ts:76-93 | One changed byte outside the checksum field breaks a holding checksum. |
| Tar.HeaderReads | apps/cli/src/self-update.ts:105-127 | A printed header reads as its path, prefix, slash and name or the name alone, its size, and whether it is a regular file. |
| Tar.HeaderIsUstar | apps/cli/src/self-update.ts:76-127 | The header that is read back is the standard's: name at 0, size at 124, checksum at 148, type at 156, prefix at 345. |
| Tar.SlashlessIff | apps/cli/src/self-update.ts:117-128 | A binary's name without a slash is matched only by an entry with no prefix and that very name. |
| Tar.ChecksumInFigures | apps/cli/src/self-update.ts:84-91 | The checksum is the sum of the bytes with 32 for each of the eight of its own field. |
| Tar.OctalSplits | apps/cli/src/self-update.ts:64-71 | Octal digits weigh eight times the next. |
| Tar.OctalIff | apps/cli/src/self-update.ts:64-71 | A field is a number exactly if it holds octal digits alone, and some. |
| Tar.LengthIsChecked | apps/cli/src/self-update.ts:99-103 | An archive that is no whole number of blocks, or has none, is refused. |
| Tar.TruncationIsFound | apps/cli/src/self-update.ts:122-124 | An entry whose payload is cut short is refused, whatever its name. |
| Tar.TrimIsExact | apps/cli/src/self-update.ts:57-62 | Trimming the bytes takes off whole characters of white space alone and leaves none at the end. |
| Tar.WhiteIff | apps/cli/src/self-update.ts:59-61 | The bytes taken off are the UTF-8 encodings of exactly the characters that `trim` takes off. |
| Tar.WholeBlocksIff | apps/cli/src/self-update.ts:99-102 | The recursive block predicate is divisibility by 512. |
| Tar.VerifyChecksum | apps/cli/src/self-update.ts:76-93 | The accumulating loop accepts exactly the headers whose octal field is their byte sum with blanks for the field. |
| Tar.LookAt | apps/cli/src/self-update.ts:105-135 | One round of the loop is one step of the scan of what is left. |
| Tar.ExtractBinary | apps/cli/src/self-update.ts:95-137 | The loop over offsets equals the specification's scan, with each error in its place; the offset stays a multiple of 512 inside the archive. |
| ProtectedWrite.StepPreserves | apps/cli/src/json-state.ts:24-50 | Every step of any writer, every late directory write and every crash keeps each directory still reachable whole for each protected path. |
| ProtectedWrite.OldOrNewWhole | apps/cli/src/json-state.ts:24-50 | After any interleaving of writers, failures and crashes a path reads as at first or as one whole text written to it. |
| ProtectedWrite.CrashAnywhere | apps/cli/src/json-state.ts:24-50 | The same for a crash at any point of any run, whatever unsynced files become. |
| ProtectedWrite.ReadersSeeOnlyRenames | apps/cli/src/json-state.ts:35-44 | Short of a crash, what a protected path reads changes only when a writer's rename runs, and then to that writer's whole text. |
| ProtectedWrite.CrashRewinds | apps/cli/src/json-state.ts:37-44 | A crash takes a path back to what an earlier directory named, never to anything else. |
| ProtectedWrite.RenameCanBeUndone | apps/cli/src/json-state.ts:37-44 | Right after the rename a crash can still restore what was there before. |
| ProtectedWrite.Store.Fill | apps/cli/src/json-state.ts:36-42 | Write, sync, and close whatever happened; the first failure is thrown, but a failed close takes its place; without one the temporary file holds the whole text synced. |
| ProtectedWrite.Store.WriteProtectedFile | apps/cli/src/json-state.ts:24-50 | For all replies: exactly the steps they dictate, the error that the handlers leave, the target new if and only if the rename was reached and ran, the temporary name gone unless it could not be removed, no other path changed. |
| ProtectedWrite.Store.Install | apps/cli/src/json-state.ts:34-44 | The guarded part: its steps, its error, and what each path reads after it. |
| ProtectedWrite.NoneThrownIff | apps/cli/src/json-state.ts:29-49 | The call returns if and only if every step went well. |
| RenameRetry.RenameWithWindowsRetry | apps/cli/src/atomic-rename.ts:18-47 | Stops at the first attempt that ends it, at most 12, exactly one off Windows; the error thrown is that attempt's own; waits end by the deadline and sum to at most 850 ms. |
| RenameRetry.StartsInTime | apps/cli/src/atomic-rename.ts:27-44 | Every attempt after the first starts before start + 1,000 ms. |
| RenameRetry.RetriedIff | apps/cli/src/atomic-rename.ts:33-44 | Another attempt follows exactly after EPERM, EACCES or EBUSY on Windows, before the twelfth and before 1,000 ms are over. |
| RenameRetry.WaitInFigures | apps/cli/src/atomic-rename.ts:43 | The waits are 10, 20, 40, 80 and then 100 ms, cut off at the deadline. |
| RenameRetry.WaitsAreShort | apps/cli/src/atomic-rename.ts:43 | However the attempts go, fewer than 12 waits bounded by 10·2^(n-1) and 100 come to at most 850 ms. |
| RenameRetry.EightFiftyIsReached | apps/cli/src/atomic-rename.ts:43 | The bound is the sum of the eleven unshortened waits. |
| ExecutableSwap.AlwaysRecoverable | apps/cli/src/self-update.ts:199-238 | At every point of the swap a whole old or new binary is at the executable's path, or the old one at its `.old` path. |
| ExecutableSwap.ReportIsTrue | apps/cli/src/self-update.ts:209-237 | What each outcome says: installed means the new binary is in place, a reported restore that the old one is. |
| ExecutableSwap.OutcomeIff | apps/cli/src/self-update.ts:209-237 | Which outcome is reported, for all replies. |
| ExecutableSwap.NothingToStartIff | apps/cli/src/self-update.ts:216-236 | The executable's path ends empty exactly when, on Windows, the move aside ran but was reported failed, or neither install nor restore ran. |
| ExecutableSwap.OthersUntouched | apps/cli/src/self-update.ts:199-238 | No other file changes at any point. |
| ExecutableSwap.Disk.ReplaceExecutable | apps/cli/src/self-update.ts:199-238 | The method goes through exactly the directories of the specification and reports its outcome. |
| ProcessExit.StepPreserves | apps/api/src/server-bootstrap.ts:66-167 | Every callback, timer and tick keeps the invariant over latches, deadlines and flush stages. |
| ProcessExit.OneRecordOwnsTheExit | apps/api/src/server-bootstrap.ts:85-119 | At most one record is committed and the process exits with that record's code. |
| ProcessExit.FirstRecordStays | apps/api/src/server-bootstrap.ts:90-92 | Once committed, no later path changes the record. |
| ProcessExit.FatalExitsInTime | apps/api/src/server-bootstrap.ts:103-167 | No state of any run lies later than 2,750 ms after a fatal error, handled or met by an exit under way; the promise is 3,000 ms. |
| ProcessExit.FatalLeadsToExit | apps/api/src/server-bootstrap.ts:103-167 | After a fatal error the timers alone, every foreign call hanging, lead to the exit, within that time. |
| ProcessExit.SignalExitsInTime | apps/api/src/server-bootstrap.ts:260-363 | No state of any run lies later than 29,500 ms after a signal, or 28,000 ms if no fatal error ever arrives. |
| ProcessExit.SignalLeadsToExit | apps/api/src/server-bootstrap.ts:260-363 | After a signal the timers alone lead to the exit, within 29,500 ms, or 28,000 ms with no fatal error before. |
| ProcessExit.DrainedExitsInTime | apps/api/src/server-bootstrap.ts:292-361 | No state of any run lies later than 11,000 ms after the drain has ended, or 9,500 ms if no fatal error ever arrives, however long the close hangs. |
| ProcessExit.ForcedNotEarly | apps/api/src/server-bootstrap.ts:266-325 | An exit is forced only 8,500 ms or more after the drain or 27,000 ms or more after a signal; a fatal exit is committed within 1,000 ms of a fatal error. |
| ProcessExit.CloseInTimeIsReported | apps/api/src/server-bootstrap.ts:326-361 | With no fatal error, a close that settles within 8,500 ms of the drain and 27,000 ms of the signal commits `Complete`, or `CloseError` if it failed. |
| ProcessExit.TimersInFigures | apps/api/src/server-bootstrap.ts:41-52 | Until a commit each phase runs under its timer: 27,000 ms from the signal, 8,500 ms from the drain, 3,000 ms from the fatal error. |
| ProcessExit.ClockRunsUntil | apps/api/src/server-bootstrap.ts:121-138 | Until then time can run on to exactly the first of the 1,000 ms of the handoff, the close and the total timer. |
| ProcessExit.ExitInFigures | apps/api/src/server-bootstrap.ts:85-119 | The code, the deadlines of each kind of exit, and that it does not come before the flush is over or out of time. |
| ProcessExit.ExitIsReached | apps/api/src/server-bootstrap.ts:85-167 | From every state with a fatal error, a signal or a commit behind it, ticks and due timers lead to the exit. |
| ProcessExit.TimerLowersRank | apps/api/src/server-bootstrap.ts:85-167 | Each due timer's effect exits or lowers the count of armed timers and stages left. |
| ProcessExit.CommitsAtOnce | apps/api/src/server-bootstrap.ts:141-361 | A handoff's end, a close and the two forcing timers leave an exit committed at once, their own if they are first. |
| ProcessExit.BackstopsNeverFire | apps/api/src/server-bootstrap.ts:103-138 | Neither hard-exit timer is ever the one that ends the process. |
| ProcessExit.FatalFlushGetsItsStages | apps/api/src/server-bootstrap.ts:66-83 | After a fatal error the log flush begins with the commit and is granted its full 800 ms, the first Sentry flush then its own, and the process exits in the middle of neither. |
| ProcessExit.LogsThenFirstSentry | apps/api/src/server-bootstrap.ts:72-76 | The end of the log flush begins the first Sentry flush with 800 ms, inside the deadline. |
| ProcessExit.FlushFollowsSchedule | apps/api/src/server-bootstrap.ts:66-83 | In every run the flush begins its stages in delivery order, each with its cap or what the shared deadline leaves, and ends early only at that deadline. |
| ProcessExit.OutcomeNamesItsCause | apps/api/src/server-bootstrap.ts:130-361 | The committed outcome is that of a path the run took: a fatal handoff, a close, a failed close or a forcing timer. |
| ProcessExit.TimeNeverStuck | apps/api/src/server-bootstrap.ts:103-115 | While the process lives, either the clock can move to the next timer or a due timer's effect can happen. |
| ProcessExit.ApiProcess.FinalizeExit | apps/api/src/server-bootstrap.ts:85-119 | Only the first call commits, with the deadlines of its kind. |
| ProcessExit.ApiProcess.HandleFatal | apps/api/src/server-bootstrap.ts:130-138 | Ignored while a fatal or an exit is under way; else arms the backstop and the handoff. |
| ProcessExit.ApiProcess.OnHandoffSettled | apps/api/src/server-bootstrap.ts:141-166 | The handoff's end finalizes as fatal under the fatal deadline and clears the backstop if it committed. |
| ProcessExit.ApiProcess.HandleShutdown | apps/api/src/server-bootstrap.ts:260-293 | The first signal arms the total timer and begins the drain; later ones do nothing. |
| ProcessExit.ApiProcess.OnDrainRejected | apps/api/src/server-bootstrap.ts:172-174 | A rejected drain is fatal unless it is a recoverable database error. |
| ProcessExit.ApiProcess.OnClosed | apps/api/src/server-bootstrap.ts:340-361 | The app's close, failed or not, clears both timers and finalizes. |
| ProcessExit.ApiProcess.OnCloseTimeout | apps/api/src/server-bootstrap.ts:307-325 | The close timer finalizes as forced and clears the total timer if it committed. |
| ProcessExit.ApiProcess.OnTotalTimeout | apps/api/src/server-bootstrap.ts:266-285 | The total timer finalizes as forced. |
| ProcessExit.ApiProcess.OnStageSettled | apps/api/src/flush-stage.ts:7-23 | A stage that settles or runs into its cap hands the rest of the shared deadline to the next. |
| QuotaAcks.StepPreserves | packages/sdk/src/client.ts:1754-1803 | Every warning, settlement, timer, abort and end keeps the table and its entries consistent. |
| QuotaAcks.BoundedTable | packages/sdk/src/client.ts:1767-1788 | At most four receipts in flight, one per id, none longer than its timeout, each acknowledged at most once; none after abort or end. |
| QuotaAcks.LateFinishSparesOthers | packages/sdk/src/client.ts:1783-1786 | A late completion of a timed-out entry never removes a newer entry with the same id. |
| QuotaAcks.NoAckAfterAbort | packages/sdk/src/client.ts:1790-1797 | An entry that was aborted starts no acknowledgement in any later run. |
| QuotaAcks.AbortedForCause | packages/sdk/src/client.ts:1755-1788 | No entry is aborted but for its timeout, the signal or the stream's end. |
| QuotaAcks.TrackedIff | packages/sdk/src/client.ts:1759-1787 | A warning gets an entry exactly if the signal is quiet, its id is usable and not in flight, and there is room. |
| QuotaAcks.DeliveredIff | packages/sdk/src/client.ts:1759-1803 | Every warning reaches its consumer once, but one after the signal or one whose receipt is in flight. |
| QuotaAcks.AcknowledgedIff | packages/sdk/src/client.ts:1790-1799 | A settled consumer is acknowledged exactly if it succeeded and its entry is still in flight. |
| QuotaAcks.NoAckOnceOver | packages/sdk/src/client.ts:1783-1799 | An entry that is aborted or finished starts no acknowledgement in any later run. |
| QuotaAcks.NoAckAfterEnd | packages/sdk/src/client.ts:1755-1823 | From the stream's end or the signal on nothing is in flight, no entry is made and no acknowledgement started. |
| QuotaAcks.TimeNeverStuck | packages/sdk/src/client.ts:1788 | The clock can move on, or an entry's timeout is due. |
| QuotaAcks.TimeoutEndsEntry | packages/sdk/src/client.ts:1777-1788 | A due timeout falls 10,000 ms after the entry was made and takes it, and only it, out of flight. |
| QuotaAcks.EndAbortsEverything | packages/sdk/src/client.ts:1821-1823 | The end of the stream empties the table and leaves every entry aborted or finished. |
| QuotaAcks.QuotaAckTable.FinishEntry | packages/sdk/src/client.ts:1783-1786 | Clears the timer and forgets this very entry only. |
| QuotaAcks.QuotaAckTable.CancelEntry | packages/sdk/src/client.ts:1777-1782 | Aborts, then finishes. |
| QuotaAcks.QuotaAckTable.StopQuotaAcks | packages/sdk/src/client.ts:1755-1758 | The loop that deletes while it iterates cancels every tracked entry, once. |
| QuotaAcks.QuotaAckTable.ConsumeQuotaWarning | packages/sdk/src/client.ts:1759-1803 | Coalesces a known id, does not track beyond four, else adds an entry and survives a consumer that throws. |
| QuotaAcks.QuotaAckTable.OnConsumed | packages/sdk/src/client.ts:1790-1798 | Acknowledges only after success and only if not aborted. |
| QuotaAcks.QuotaAckTable.OnStreamEnd | packages/sdk/src/client.ts:1821-1823 | Makes the machine's end step. |
| ScratchDb.StepPreserves | apps/api/scripts/scratch-db.ts:189-244 | Every step of every call keeps the conservation law: the server has what it had and what the calls hold, disjointly. |
| ScratchDb.DropsOnlyItsOwn | apps/api/scripts/scratch-db.ts:220-229 | In every interleaving a DROP removes a database this call made, never one from before, its admin database or another call's. |
| ScratchDb.NothingElseIsLost | apps/api/scripts/scratch-db.ts:206-229 | Databases from before are always there, and a body's own all the while it runs. |
| ScratchDb.BackToInitialIff | apps/api/scripts/scratch-db.ts:209-235 | Once all calls have ended the server is back exactly if each CREATE that ran was acknowledged and its DROP ran. |
| ScratchDb.BackUnlessCreateWasLost | apps/api/scripts/scratch-db.ts:209-235 | Where no DROP failed, the server is back exactly if no call that saw its CREATE fail had it take effect. |
| ScratchDb.NoFailureNoTrace | apps/api/scripts/scratch-db.ts:209-235 | If no call saw its CREATE or DROP fail, the server ends as it began. |
| ScratchDb.LostCreateLeaks | apps/api/scripts/scratch-db.ts:216-220 | A CREATE that ran while its answer was lost leaks its database with no failed drop. |
| ScratchDb.ErrorsGrow | apps/api/scripts/scratch-db.ts:208-235 | A call's error list is what failed for it, in order, whatever other calls did. |
| ScratchDb.FirstFailureLeads | apps/api/scripts/scratch-db.ts:237-243 | Returns exactly if nothing failed; one failure is thrown as it is, else the first leads, guarded part before drop before close. |
| ScratchDb.ReturnedRanItsBody | apps/api/scripts/scratch-db.ts:209-243 | What settled for a call that returned is exactly its CREATE, migration, body, DROP and close, in this order and all well. |
| ScratchDb.ClosedOnce | apps/api/scripts/scratch-db.ts:231-235 | The connection is closed exactly once by the time the call has ended. |
| ScratchDb.ClosingIsLast | apps/api/scripts/scratch-db.ts:231-235 | Nothing of the call follows the close. |
| ScratchDb.CallsGetOn | apps/api/scripts/scratch-db.ts:209-235 | Whatever a call does brings its end nearer, so that it takes finitely many steps. |
| ScratchDb.NeverStuck | apps/api/scripts/scratch-db.ts:209-235 | A call that has not ended always has an answer it can get. |
| ScratchDb.RoleAcceptedIff | apps/api/scripts/scratch-db.ts:63-86 | A role gives an accepted name exactly if its characters are allowed and it leaves room for the process id and the random part within 63 bytes. |
| ScratchDb.ScratchNameIsQuotable | apps/api/scripts/scratch-db.ts:60-77 | An accepted name can neither end its quotes nor be truncated by the server. |
| ScratchDb.Server.WithScratchDatabase | apps/api/scripts/scratch-db.ts:194-243 | For all replies: exactly the steps they dictate, the failures in order and what is thrown or returned, and the databases left; a name that may not be managed is refused before anything happens. |
| ScratchDb.ReturnsIff | apps/api/scripts/scratch-db.ts:209-243 | A call returns if and only if create, log, migration, body, drop, log and close all went well. |
| Stylesheets.VisitsReachable | apps/web/src/entry-server.tsx:91-98 | The walk ends on any graph and visits exactly the reachable chunks, each once. |
| Stylesheets.CollectedExact | apps/web/src/entry-server.tsx:94-95 | The css set is without duplicates and holds exactly the visited chunks' files that are not the entry's. |
| Stylesheets.RouteIsExact | apps/web/src/entry-server.tsx:80-100 | The result is, without duplicates, exactly the css of the chunks reachable from the route's chunk less the entry's. |
| Stylesheets.FindKeyIsFirst | apps/web/src/entry-server.tsx:84-87 | The route's chunk is the first key that is the module or ends in a slash and the module. |
| Stylesheets.Walker.Walk | apps/web/src/entry-server.tsx:91-97 | The recursive closure with its two sets is the visiting function. |
| Stylesheets.RouteStylesheets | apps/web/src/entry-server.tsx:80-100 | The whole function is the specification, missing module and missing key included. |
| ErrorLimiter.HistoryFollowsLimiter | packages/shared/src/browser-telemetry.ts:95-128 | The logged history is what the limiter answered. |
| ErrorLimiter.AllowedIff | packages/shared/src/browser-telemetry.ts:95-113 | After any history an error is allowed exactly if it is not foreign, its window has no report of its fingerprint and fewer than 100 in all; a window is renewed once a minute old. |
| ErrorLimiter.SuppressedIs | packages/shared/src/browser-telemetry.ts:100-126 | Under which fingerprint and reason an error that is not allowed is counted, and that no other entry changes. |
| ErrorLimiter.SummaryIff | packages/shared/src/browser-telemetry.ts:129-135 | A summary is handed over exactly if a call is not accounted for yet and the last one is a minute old; it is all the entries, and accounts for all of those calls. |
| ErrorLimiter.CallsAreConserved | packages/shared/src/browser-telemetry.ts:94-136 | Calls equal allowed results, counts held and counts handed to summaries. |
| ErrorLimiter.SizesAreBounded | packages/shared/src/browser-telemetry.ts:103-126 | `seen` holds at most 100 and `suppressed` at most 101. |
| ErrorLimiter.ReportedOncePerWindow | packages/shared/src/browser-telemetry.ts:96-113 | No fingerprint is allowed twice within one window. |
| ErrorLimiter.SummariesAreSpaced | packages/shared/src/browser-telemetry.ts:129-135 | Summaries are at least 60,000 ms apart. |
| ErrorLimiter.RateIsBounded | packages/shared/src/browser-telemetry.ts:96-113 | Any span of T ms allows at most 100·(⌊T/60000⌋+2). |
| ErrorLimiter.BrowserErrorLimiter.AllowError | packages/shared/src/browser-telemetry.ts:95-128 | The mutating method makes the specification's step and answers as it does. |
| ErrorLimiter.BrowserErrorLimiter.FlushSummary | packages/shared/src/browser-telemetry.ts:129-135 | Hands over and clears everything held, only when there is something and the window has passed. |
| TurnUsage.OnlyTheLastTurnCounts | packages/shared/src/acp.ts:429-474 | Everything before the last user message is ignored. |
| TurnUsage.WindowIsEnough | packages/shared/src/acp.ts:434-443 | A window that holds the turn's user message decodes as the whole transcript; one that does not reports itself full. |
| TurnUsage.EveryUsageOnceIff | packages/shared/src/acp.ts:422-474 | Adding up the decoding after each turn of a growing transcript counts every assistant usage exactly once, if and only if no turn that wrote nothing repeats a prompt found in the last user message. |
| TurnUsage.OwnTurnsAreBilledOnce | packages/shared/src/acp.ts:422-474 | In particular where every turn wrote its own user message. |
| TurnUsage.SilentCharge | packages/shared/src/acp.ts:443-444 | A turn that wrote nothing is charged exactly if its prompt passes the guard and usages follow. |
| TurnUsage.SilentTurnIsBilledTwice | packages/shared/src/acp.ts:439-444 | Any prompt said twice, the second time answered without a model call: its one call is billed twice. |
| TurnUsage.WrappedPromptIsRecognised | packages/shared/src/acp.ts:404-444 | A prompt inside any text block of the user message passes the guard. |
| TurnUsage.TokenCount | packages/shared/src/acp.ts:417-420 | The whole part of a positive finite number, zero for anything else. |
| TurnUsage.TotalInFigures | packages/shared/src/acp.ts:460-464 | Each total sums its own field over the billed messages, and `calls` counts them. |
| TurnUsage.LastModelIs | packages/shared/src/acp.ts:465-466 | The model is that of the last billed message that names one. |
| TurnUsage.LastProviderIs | packages/shared/src/acp.ts:467-468 | The provider is that of the last billed message that names one. |
| TurnUsage.SummaryIff | packages/shared/src/acp.ts:472-474 | No usage is said exactly if no message after the prompt is billed. |
| TurnUsage.NoUserIsSaid | packages/shared/src/acp.ts:434-438 | A transcript without a user message says so, and whether the window was full. |
| TurnUsage.ProvidersExact | packages/shared/src/acp.ts:467-470 | `providers` are, without duplicates, those that billed messages name. |
| TurnUsage.ProvidersInOrder | packages/shared/src/acp.ts:467-470 | They stand in the order of their first use. |
| TurnUsage.AddUsage | packages/shared/src/acp.ts:460-470 | One billed message takes the sums and lists of a prefix to those of the longer prefix. |
| TurnUsage.FindLastUser | packages/shared/src/acp.ts:429-433 | The scan finds the last user message. |
| TurnUsage.DecodeOpenclawTurnUsage | packages/shared/src/acp.ts:422-475 | The two loops give the specification's status and usage. |
| Rrule.TimeRead | packages/shared/src/automation-schedule.ts:39-59 | Reading a printed rule gives the clamped time; an hourly rule keeps its minute with hour 09. |
| Rrule.RuleIs | packages/shared/src/automation-schedule.ts:39-52 | The text of each preset's rule. |
| Rrule.TwoDigits | packages/shared/src/automation-schedule.ts:55-59 | Hours and minutes are printed plainly in rules and with two digits in times. |
| Rrule.TimeIsClamped | packages/shared/src/automation-schedule.ts:22-31 | Numbers off the clock are brought back to 23 and 59. |
| Rrule.NoNumberIsZero | packages/shared/src/automation-schedule.ts:22-31 | What is no number, or missing, counts as zero. |
| Rrule.TimeComesBackIff | packages/shared/src/automation-schedule.ts:22-59 | The time comes back exactly if it is on the clock. |
| Rrule.WeekdayComesBackIff | packages/shared/src/automation-schedule.ts:49-67 | The weekday of a weekly rule comes back exactly if it is one of the seven. |
| Rrule.KeyCaseIsIgnored | packages/shared/src/automation-schedule.ts:33-34 | A key asked for in any case finds the same value in any rule. |
| Rrule.LowerCaseIsRead | packages/shared/src/automation-schedule.ts:33-34 | In any rule a key written in any case, in the first field to assign it, is found with its value. |
| Rrule.UnassignedIsAbsent | packages/shared/src/automation-schedule.ts:33-34 | A key that no field assigns is not found. |
| Rrule.ReprintIff | packages/shared/src/automation-schedule.ts:39-67 | Printing what was read gives the same rule for any time text, weekly exactly for the seven weekdays. |

## Left out

- UTF-8 decoding: stream chunks are character sequences; a code point cut by a chunk is `TextDecoder`'s business.
- JSON parsing: `decode` stands for it, with its exception as `None`; keys made with `JSON.stringify` stand for their arrays.
- gzip and zip: the tar scan starts from the unpacked bytes.
- `tarString`: names are compared as trimmed bytes rather than as decoded text, which differs only for a binary name that is not ASCII, and the two that exist are.
- Network, `fetch`, Sentry, OpenTelemetry and Postgres: foreign calls are outcomes that settle or fail; a database statement takes effect at most once and before its answer.
- `Sentry.flush` is taken to honour the timeout it is given, and armed timers are taken to fire on time; a synchronous stall of the event loop is not modelled.
- `prepareForShutdown`: a step that may take any time, hang or reject.
- Exit records: only the outcome and the code, not the turn counts and error texts.
- `taskIdOf` that throws, and a consumer that calls back into the stream from inside a callback.
- Idle timeouts of the chat and create streams; `onOpen`, `onClose` and the dispatch of a host-status frame.
- `fingerprintFor` and the foreign-extension test: the limiter takes both as inputs.
- Limiter clocks that go backwards: each history has a monotone clock.
- ChatFrames.FramesIff: for chunkings without empty decoded chunks only the "if" is claimed; the text LF CR CR LF is not settled, yet no cut of it into non-empty chunks changes a frame (`EmptyChunksMatter`).
- `harvestWindowMs`: the window is any number of milliseconds rather than a parsed environment value.
- File modes, and a temporary name that two writers share: the names are random UUIDs.
- The temporary-file cleanup after a failed exclusive open also removes a file that was there before; `ProtectedWrite.Store.WriteProtectedFile` states it as part of what it cleans up.
- A sync or a write that reports failure may still leave anything in the temporary file; it is never renamed, so only its name matters.
- `sessions.get` is taken to return the last `limit` messages; token sums are unbounded integers, without the rounding of large doubles.
- Digit texts in times and rules beyond what a double holds: the model reads them exactly, where `Number` rounds, prints an exponent, or overflows to Infinity, which the clamp turns into 0.
- Number texts in times and rules other than plain digits (signs, fractions, exponents, blanks): they read as not a number.
- Weekly rules whose weekday text contains a semicolon.
- URL checks, the migration command and the inherited audit URL of the scratch databases.
- The path-and-body wrappers of the SDK, user interfaces, tables and regular-expression classifiers: they hold no state or algorithm of their own.

# A model of the background's lifecycle and of the measurement probes

BrowserAI runs one background process per user, install root and data root. Any number of processes may be
started as that background: by a scheduled task, by a person's start or by an update. They share three
things, a named pipe that only one can hold, a record file, and the scheduled task. A person's start asks the
pipe for a page, clears the record of a crash or ends a hung background, runs the task, and polls the pipe to
a deadline. This project models that protocol and proves what its comments promise about every run: one
holder of the pipe, a record that tells a crash from every other end, a kill that only meets a background
that recorded itself, and a bound on how long the person waits.

Around it stand the repository's probes, small programs that carry the protocol to and from the AI clients
and take the measurements: newline framing, request and answer correlation, the stand-in servers, exact-offset
texts, an image-size decoder, two process-tree walks and a percentile. Each is modelled with its own loops and
fields and proved against a specification whose properties are proved in turn.

## How it is laid out

| file | what it holds |
|---|---|
| `Lifecycle.dfy` | the protocol as a transition system: processes, pipe, record, persons' starts, a clock |
| `LifecycleInvariants.dfy` | what every step keeps |
| `LifecycleTheorems.dfy` | the claims about every run, and the runs that show how far they go |
| `LifecycleHistory.dfy` | what a mark, and a page shown, tell of the run that led to them |
| `LifecyclePrograms.dfy` | the programs in their own form, each uninterrupted run proved to be a run of the transition system |
| `PersonStart.dfy` | one person's start on its own clock: bounds, and when a page is shown |
| `Framing.dfy` | newline framing over arbitrary chunks |
| `Correlation.dfy` | which request an answer settles |
| `UpdateStub.dfy` | the stand-in server of the update measurements |
| `UpdateStubAnswers.dfy` | what each request to it gets after any run, from the events alone |
| `DyingShim.dfy` | the pass-through that ends its server once |
| `LaunchNumbers.dfy` | launch numbers taken by exclusive creates |
| `ProcessTree.dfy` | the descendants of a process, two ways |
| `ImageSize.dfy` | the PNG, JPEG and WebP size decoder |
| `Texts.dfy`, `Builders.dfy`, `AsciiTexts.dfy` | texts with markers at exact offsets in bytes or UTF-16 units |
| `Percentile.dfy` | the interpolated percentile |
| `Wrappers.dfy` | what several modules share: the option type and the JSON-RPC id |

## How the protocol is modelled

A process is identified by its pid and its creation time; pids are reused once their process is gone. Every
event of the transition system is one step of one process, of one person's start or of one relay, and events
interleave freely. Reading the record and writing it are two steps with anything in between, as at the awaits of the
code. `Fresh` says of a write that the record still is what it was at its own read, and a run in which every
write is fresh is one whose read-check-writes are indivisible. The lemmas speak of worlds that are
`Reachable(w, Any)`, by any run; `Reachable(w, Whole)`, by such an indivisible one; or
`Reachable(w, WholeAndRead)`, where moreover no refusal is written after a read that failed. Reads, writes and
deletions of the record can each fail, as events of their own: a read that fails is taken for an absent record,
as the code takes it. What the operating system, the scheduler and the image check answer is any of their
answers, and a listener that fails gives up the pipe's name while its process runs on.

## What turned out differently from the comments

- An ask of the background can last twice its bound, not once: a busy pipe is retried to the bound
  (`src/BrowserAI.Core/Coordination/BackgroundClient.cs:151-193`), and the wait for the answer then counts a
  bound of its own (`:208-210`). Only an ask that connected can, so the poll still needs room for one bound
  and one look interval, and timers that fire late, before its deadline. `TheBoundsAreMet` has both slowest
  asks.
- A record that cannot be read is taken for absent (`src/BrowserAI.Core/Coordination/BackgroundRecord.cs:287-303`).
  A stop that cannot read its own record leaves it unmarked, and it reads as a crash:
  `AnUnreadMarkReadsAsCrash`. A refused root that cannot read the record writes its refusal over a background
  that serves, against the promise never to (`src/BrowserAI/Program.Background.cs:235-238`):
  `AnUnreadRefusalSpoils`.
- A serve that ends while an update hand-over still has its mark to make leaves a record that reads as a
  crash: the hand-over sets the state first, the mark of a stop is skipped in that state, and nobody awaits the
  hand-over (`src/BrowserAI/Program.Background.cs:180-183`, `:365-370`). `ReturnReadsAsCrash` says exactly when
  a record reads as a crash after a return, and `WithoutFailuresOnlyAHandOverDoes` that this is the only cause
  besides failing reads and writes.
- A listener that fails frees the pipe's name while its background runs on, so a second one can serve beside it:
  `AFailedListenerLetsASecondServe`. A stop whose sessions cannot be closed without a throw is not marked:
  `AThrowingDisposalReadsAsCrash`.
- A session's end and the Task Scheduler's End command can leave no mark with nothing failed: Windows waits
  about a second, or five at a sign-out (`src/BrowserAI/Interop/SessionEndWindow.cs:41-54`), while the write may
  retry its rename for longer, and it ends a process with no window without any notice, which is the case
  before the window exists and again while the sessions close. `AnEndOutrunsItsMark` and
  `AnUnheardEndReadsAsCrash` are such runs, and `WindowsEndReadsAsCrash` says exactly when.
- The claims about the record hold for indivisible record operations only. `AStaleClearSpoils`,
  `AStaleMarkSpoils` and `AStaleExitSpoils` are runs that take a live background's record away at await
  granularity.
- The kill is aimed by the pid that the pipe reported and by the record read afterwards. If the asked process
  ends in between and its pid is reused by another background of the same record, that one is ended;
  `KillsAreRightful` says exactly when.
- A background that is stopping closes its connections without an answer, which reads as hung:
  `AStoppingBackgroundCanBeEnded`.
- The stand-in server answers no request whose method begins with `notifications/`, even one with an id, and
  nothing that it handles after its output ended; `AnsweredAtOnce` says exactly which requests are answered.
- A shim whose client has gone can use up the one death of its marker without anybody dying for the count:
  `AClientThatLeavesUsesTheDeathUp`.
- The second truncation round says that its text has a high surrogate at unit 2047
  (`docs/probes/2026-08-18-truncation/probe-server2.js:59-60`). The marker that ends at 2000 starts the parity
  anew, so it is a low one for every prefix that fits, and a cut at 2048 splits nothing:
  `TheSecondRoundIsNotSplit`.
- The depth-first search for a process's descendants runs for ever exactly when the process is its own
  descendant: `TheSearchEndsUnlessInACycle`.
- The image decoder takes JPEG fill bytes for a marker and its length: `FillBytesAreALength` says where the
  scan goes on, and `FillBytesHideTheSize` when no size is found.

## Model

| member | source | states |
|---|---|---|
| LifecycleInvariants.InvRun | src/BrowserAI/Program.Background.cs:142-184 | every run, at await granularity, keeps the protocol's invariants: the pipe is held by exactly the process whose code holds it, only authors are ever named, marks tell the end |
| LifecycleInvariants.ActIsLocal | src/BrowserAI/Program.Background.cs:245-468 | no act of a background touches another process, takes a pipe that is held, or writes a record that names another |
| LifecycleInvariants.EndKillKeeps | src/BrowserAI.App/PersonStart.cs:277-327 | ending a process keeps the invariants and logs a kill of a recorded background with the reported pid |
| LifecycleTheorems.OneHolder | src/BrowserAI/Program.Background.cs:142-161 | in every run at most one process holds the pipe |
| LifecycleTheorems.LoserNeverWrites | src/BrowserAI/Program.Background.cs:153-161 | a start that found the pipe taken never writes the record, and nothing ever names it |
| LifecycleTheorems.OnlyStaleWritesSpoil | src/BrowserAI/Program.Background.cs:245-262 | an event that is not the holder's, of another process, a person's start or a relay, takes the holder's name out of the record exactly when it writes the record, and every such write acts on a stale read or records a refusal after a read that failed; no other event changes the record |
| LifecycleTheorems.RecordNamesTheHolder | src/BrowserAI/Program.Background.cs:309-323 | with indivisible record operations and no refusal written unread, the record names the holder from its successful started write for as long as it holds the pipe |
| LifecycleTheorems.ShownMeansRecorded | src/BrowserAI/Program.Background.cs:309-433 | whoever handed out a page had tried its started write before; in such a run its record still names it while it holds the pipe |
| LifecycleHistory.ShownWasHandedOut | src/BrowserAI.App/PersonStart.cs:134-137 | over every run, a start that was shown a page had an answer, at a moment when the process that answered held the pipe, had been told to accept and served |
| LifecycleHistory.ShownByAnAnswer | src/BrowserAI.App/PersonStart.cs:134-141 | a start becomes shown by an answer of the pipe's holder and by no other event |
| LifecycleHistory.RefusedForGood | src/BrowserAI.App/PersonStart.cs:139-141 | a start that is refused is not shown a page, then or later |
| LifecycleHistory.OverIsOver | src/BrowserAI.App/PersonStart.cs:126-157 | no event changes a start that was shown its page or is not shown one |
| LifecycleHistory.TheMarkTellsWhatHappened | src/BrowserAI.Core/Coordination/BackgroundRecord.cs:187-243 | over every run: a record marked as stopped, updated, refused, or ended by the session or the End command names a process that was asked to stop, began its hand-over, was refused, or heard that very notice; one with no mark names a process that wrote it as started |
| LifecycleHistory.OnlyAStopLeavesAHandOver | src/BrowserAI/Program.Background.cs:365-370 | over every run, a background that returned with its hand-over's mark still to make was asked to stop as well |
| LifecycleHistory.NoticesDoNotOverlap | src/BrowserAI/Interop/SessionEndWindow.cs:57-65 | a second notice is not told while the mark of the first is under way |
| LifecycleHistory.OnlyAHolderRefuses | src/BrowserAI.App/PersonStart.cs:139-148 | a refusal comes only from a holder of the pipe that accepts, and silence only from a holder |
| LifecycleTheorems.CrashReadingIsRight | src/BrowserAI.App/PersonStart.cs:246-264 | a record that reads as a crash names a process that crashed, was killed or threw, or for one of whose marks a read or a write of the record failed, or that returned with a hand-over's mark under way, or that Windows ended with no notice or with the notice's mark under way |
| LifecycleTheorems.ReturnReadsAsCrash | src/BrowserAI/Program.Background.cs:177-183 | of a process that returned and that the record names, the record reads as a crash if and only if its stop and its hand-over each left no mark, not made or failed by a read or a write, and no notice of its window left one |
| LifecycleTheorems.WithoutFailuresOnlyAHandOverDoes | src/BrowserAI/Program.Background.cs:365-370 | where no read and no write failed, that is if and only if an update hand-over still had its mark to make and no notice of the window was marked |
| LifecycleTheorems.WindowsEndReadsAsCrash | src/BrowserAI/Program.Background.cs:329-344 | of a process that Windows ended and that the record names, the record reads as a crash if and only if its window heard no notice, or the last notice's mark was under way or failed by a read or a write, and no mark of it was written |
| LifecycleTheorems.MarkedMeansMarked | src/BrowserAI.Core/Coordination/BackgroundRecord.cs:187-243 | the record carries no end mark exactly when the process it names started and got no mark written, and the refusal mark exactly when that process never tried to start |
| LifecycleTheorems.SessionsAreToldTheCause | src/BrowserAI/Program.Background.cs:217-222 | sessions are told of an update exactly when a hand-over had begun, of a stop exactly when only a stop had come, and of a failure exactly when neither had, and then the serve threw |
| LifecycleTheorems.KillsAreRightful | src/BrowserAI.App/PersonStart.cs:277-327 | every process a person's start ended had written a record of its own pid and creation time, had the pid the pipe reported, and is the process asked if and only if it was created by the time of the ask |
| LifecycleTheorems.AStaleClearSpoils | src/BrowserAI.App/PersonStart.cs:246-264 | a reachable run in which clearing a crash takes the record of a background that serves |
| LifecycleTheorems.AStaleMarkSpoils | src/BrowserAI.Core/Coordination/BackgroundRecord.cs:187-205 | a reachable run in which a stopped background's mark replaces the record of the next one |
| LifecycleTheorems.AStaleExitSpoils | src/BrowserAI.Core/Coordination/BackgroundRecord.cs:255-267 | a reachable run in which a relay's note of a crashed background's end replaces the record of the next one |
| LifecycleTheorems.AStopDuringAHandOverReadsAsCrash | src/BrowserAI/Program.Background.cs:365-370 | a reachable run with indivisible, successful record operations in which a background returns with its hand-over's mark under way and its record reads as a crash |
| LifecycleTheorems.AnUnreadMarkReadsAsCrash | src/BrowserAI.Core/Coordination/BackgroundRecord.cs:187-194 | a reachable run with indivisible record operations and no hand-over in which a background stops, cannot read its record and leaves it reading as a crash |
| LifecycleTheorems.AnEndOutrunsItsMark | src/BrowserAI/Program.Background.cs:329-335 | a reachable run with indivisible record operations that all succeed in which Windows ends a background between the read and the write of its notice's mark |
| LifecycleTheorems.AnUnheardEndReadsAsCrash | src/BrowserAI/Program.Background.cs:346 | a reachable run with indivisible record operations that all succeed in which Windows ends a stopping background whose window is gone |
| LifecycleTheorems.AThrowingDisposalReadsAsCrash | src/BrowserAI/Program.Background.cs:172-183 | a reachable run in which a stop is not marked, because closing the sessions threw |
| LifecycleTheorems.AFailedListenerLetsASecondServe | src/BrowserAI/Background/BackgroundServer.cs:308-346 | a reachable run in which a listener fails and a second background serves beside the first |
| LifecycleTheorems.AnUnreadRefusalSpoils | src/BrowserAI/Program.Background.cs:245-256 | a reachable run with indivisible record operations in which a refused root that cannot read the record writes over the one of the background that serves |
| LifecycleTheorems.AReusedPidMisleads | src/BrowserAI.App/PersonStart.cs:277-300 | a reachable run in which a person's start ends a background it never asked |
| LifecycleTheorems.AStoppingBackgroundCanBeEnded | src/BrowserAI.App/PersonStart.cs:142-148 | a reachable run in which a person's start ends a background that was stopping, and clears its record |
| LifecyclePrograms.Background.RunTheBackground | src/BrowserAI/Program.Background.cs:62-198 | an uninterrupted run of the program is a whole run of the transition system and gives the pipe back, with the exit code and the kind of end its own events determine; whatever of a stop, a hand-over and a throw it meets, what it leaves reads as a crash if and only if it recorded its start and no mark was due, or the record could not be read or written for the mark that was |
| LifecyclePrograms.Background.TakeThePipe | src/BrowserAI/Program.Background.cs:142-198 | of a root that may serve: a failure before the pipe and a throw end it with code 1, a taken pipe with 0 and with nothing changed, and otherwise the record is what its fate leaves |
| LifecyclePrograms.Background.Serve | src/BrowserAI/Program.Background.cs:306-468 | from the pipe to the end of the loop or to a throw before or after it accepts: the started record, the state and the hand-over's mark |
| LifecyclePrograms.Background.EndTheLoop | src/BrowserAI/Program.Background.cs:436-460 | a hand-over and a stop come, each, both or none, and the loop is left or throws: the state and the mark that leaves |
| LifecyclePrograms.Background.HandOverTo | src/BrowserAI/Program.Background.cs:365-370 | a hand-over sets the updating state, tries its mark if there is time, and then cancels the loop |
| LifecyclePrograms.Background.Stop | src/BrowserAI/Background/BackgroundVerbs.cs:83-92 | a stop changes the state only while it serves, and cancels the loop in any |
| LifecyclePrograms.Background.Leave | src/BrowserAI/Program.Background.cs:165-184 | the pipe is released whatever ended the serve, and the record is marked as stopped only in the stopping state |
| LifecyclePrograms.Background.EndedCleanly | src/BrowserAI.Core/Coordination/BackgroundRecord.cs:187-205 | only a record that can be read and names this process is marked, and only its end mark changes |
| LifecyclePrograms.Background.RecordTheRefusal | src/BrowserAI/Program.Background.cs:245-262 | the refusal is recorded over every record but one that could be read and names another live process |
| LifecyclePrograms.ClearARecordedCrash | src/BrowserAI.App/PersonStart.cs:246-264 | exactly a record that can be read and reads as a crash is cleared, and a deletion that fails ends the start |
| LifecyclePrograms.EndTheHungBackground | src/BrowserAI.App/PersonStart.cs:277-304 | exactly the process that the record names is ended, if the record can be read, its pid is the reported one, the build is installed and its identity holds; otherwise nothing changes |
| LifecyclePrograms.ShowAsync | src/BrowserAI.App/PersonStart.cs:126-157 | what the first ask finds decides: an answer shows the page and a refusal does not, at once; the task is run exactly when nobody was there or a silent background was ended, with the record cleared, and then the looks decide; the whole is a whole run of the transition system |
| LifecyclePrograms.BeforeTheTask | src/BrowserAI.App/PersonStart.cs:143-154 | a recorded crash is cleared, or a silent background ended and its record cleared, and when that stops the start |
| LifecyclePrograms.PollThePipe | src/BrowserAI.App/PersonStart.cs:219-243 | a page is shown if and only if the task started and the first look that finds somebody is answered |
| LifecyclePrograms.AnAskIsMade | src/BrowserAI.App/PersonStart.cs:132-154 | what each finding of an ask makes of the start, of its first ask and of a later one |
| PersonStart.OpenConversation | src/BrowserAI.Core/Coordination/BackgroundClient.cs:147-194 | the loop makes exactly the tries of the specification |
| PersonStart.OpeningIsBounded | src/BrowserAI.Core/Coordination/BackgroundClient.cs:147-194 | opening takes at most the bound and one late timer, tries again only while the pipe is busy, and fails only on another failure or at the bound |
| PersonStart.AskTheBackground | src/BrowserAI.Core/Coordination/BackgroundClient.cs:202-252 | one ask is answered, refused or silent exactly as the background answers, refuses, or closes or comes too late, if some try opens the pipe, and finds nobody exactly if none does; it takes at most one bound and a late timer if it finds nobody, and two of each otherwise |
| PersonStart.AskIsBounded | src/BrowserAI.Core/Coordination/BackgroundClient.cs:202-252 | the two bounds of an ask, by what it finds, and an answer is reported only if it came before the wait was cut off |
| PersonStart.WhatAnAskFinds | src/BrowserAI.Core/Coordination/BackgroundClient.cs:218-252 | the same of the specification, and how long an ask takes that connected on the k-th try |
| PersonStart.OpeningConnects | src/BrowserAI.Core/Coordination/BackgroundClient.cs:151-194 | opening connects on the first try that does not find the pipe busy, if that opens it before the bound is over, and on no other |
| PersonStart.TheBoundsAreMet | src/BrowserAI.Core/Coordination/BackgroundClient.cs:147-252 | both bounds are met: an ask that finds nobody after the whole of the one, and one that is silent for the whole of the other |
| PersonStart.Poll | src/BrowserAI.App/PersonStart.cs:217-243 | the poll shows a page if and only if the first ask before the deadline that finds somebody is answered; it runs on after its deadline for less than one ask that finds somebody, or one that finds nobody and the wait after it; its asks all begin before the deadline |
| PersonStart.Look | src/BrowserAI.App/PersonStart.cs:217-239 | one turn of the poll: an ask, what it decides, and the wait after one that found nobody |
| PersonStart.AsksAreFew | src/BrowserAI.App/PersonStart.cs:217-239 | the asks of a poll but the last fit into the start bound, one look interval each |
| PersonStart.AnsweringInTimeIsShown | src/BrowserAI.App/PersonStart.cs:217-243 | a background that answers every ask from a moment that leaves one hand-out bound and one look interval, and a late timer for each, before the deadline is always shown |
| PersonStart.OneMillisecondLessCanMiss | src/BrowserAI.App/PersonStart.cs:217-243 | that room cannot be smaller: for a start bound of the room and any number of look intervals there are asks that can happen by which a background that answers one millisecond later is missed |
| PersonStart.StartThroughTheTask | src/BrowserAI.App/PersonStart.cs:159-244 | the task is run at once or after registering it again, with exactly the calls that takes; a page is shown if and only if the task started, at once or then, and the poll found an answer |
| PersonStart.Show | src/BrowserAI.App/PersonStart.cs:126-157 | an answer in time shows the page and a refusal in time does not, at once and with no call; silence and a closed connection go on only if the hung background was ended; otherwise the task and the poll decide; and the whole ends within its first ask, its file and process work, four scheduler calls, the start bound and what the poll may run over |
| Framing.Reader.Data | docs/probes/2026-09-14-webp-ask/rpc.js:32-40 | the loop over one chunk handles the trimmed non-blank lines of buffer and chunk, and keeps the rest after the last newline |
| Framing.Forwarder.Data | docs/probes/2026-09-24-q261/shim.js:97-123 | the shim's differently shaped loop refines the same frames and rest, and forwards the stream unchanged |
| Framing.LinesAreTheStream | docs/probes/2026-09-25-client-behaviour/updstub.js:213-226 | the lines with their newlines and the rest are the stream |
| Framing.NoNewlineIsLeft | docs/probes/2026-09-25-client-behaviour/updstub.js:213-226 | no line and no rest holds a newline |
| Framing.TrimTakesOnlySpace | docs/probes/2026-09-24-q261/shim.js:107 | trimming takes white space off both ends and nothing else, and leaves none there |
| Framing.FramesAreTheLines | docs/probes/2026-09-25-client-behaviour/updstub.js:218-220 | the frames are the trimmed lines that are not all white space, each once and in order |
| Framing.SpaceIs | docs/probes/2026-09-24-q261/shim.js:107 | white space is ECMAScript's, character by character, and a line ends at a line feed |
| Framing.LinesOfTwo | docs/probes/2026-09-25-client-behaviour/passthru.js:35-48 | the lines of a stream are those of any part of it followed by those of what it left and what came after |
| Framing.ChunksDoNotMatter | docs/probes/2026-09-14-webp-ask/rpc.js:32-49 | for every split into chunks the frames handled are those of the whole stream in order |
| Framing.AnyTwoSplitsAgree | docs/probes/2026-09-16-resume/mcp.js:22-36 | two splits of one stream give the same frames and the same buffer |
| Correlation.NextSettlesOne | docs/probes/2026-09-14-webp-ask/rpc.js:41-63 | an event settles no request but the one it names, and none that is settled already |
| Correlation.RunConserves | docs/probes/2026-09-14-webp-ask/rpc.js:28-67 | in every run the requests sent are the disjoint union of resolved, timed out and pending |
| Correlation.TheTableTellsEachFate | docs/probes/2026-09-14-webp-ask/rpc.js:28-67 | in every run each request comes to what its own first answer or timer says, whatever else arrives |
| Correlation.AnyChunksSettleTheSame | docs/probes/2026-09-14-webp-ask/rpc.js:32-49 | the same requests are settled by the same frames however the stream was cut |
| Correlation.FedSettles | docs/probes/2026-09-14-webp-ask/rpc.js:32-49 | after a stream, however cut, a pending request is resolved with the frame of the first line of the whole stream that carries its id, and is still pending if there is none |
| Correlation.StreamSettles | docs/probes/2026-09-16-resume/mcp.js:25-35 | the same of the lines of one stream |
| Correlation.NotificationsAreKept | docs/probes/2026-09-14-webp-ask/rpc.js:45-47 | a client that listens keeps the method of every line that settles nothing and has one, in order; the other keeps none |
| Correlation.FedIsTheWholeStream | docs/probes/2026-09-16-resume/mcp.js:22-36 | a client fed chunk by chunk is where the frames of the whole stream bring it |
| Correlation.RpcClient.constructor | docs/probes/2026-09-14-webp-ask/rpc.js:28-51 | a new client has sent nothing |
| Correlation.RpcClient.Rpc | docs/probes/2026-09-14-webp-ask/rpc.js:52-67 | a send takes the next id and makes exactly it pending |
| Correlation.RpcClient.TimerFires | docs/probes/2026-09-14-webp-ask/rpc.js:59-62 | a timer that fires times out its own request if that is pending |
| Correlation.RpcClient.Receive | docs/probes/2026-09-14-webp-ask/rpc.js:41-47 | a frame settles the pending request of its id, or is kept as a notification, or is dropped |
| Correlation.RpcClient.Data | docs/probes/2026-09-14-webp-ask/rpc.js:32-49 | of the lines a chunk completes, the first that carries a pending request's id resolves it with its frame, a request none carries stays pending, and the rest with a method are kept as notifications |
| Correlation.Mcp.constructor | docs/probes/2026-09-16-resume/mcp.js:15-18 | a new client has sent nothing |
| Correlation.Mcp.Send | docs/probes/2026-09-16-resume/mcp.js:39-45 | the same of the class whose counter holds the id to come |
| Correlation.Mcp.Receive | docs/probes/2026-09-16-resume/mcp.js:30-34 | a frame settles the pending request of its id and does nothing else |
| Correlation.Mcp.Data | docs/probes/2026-09-16-resume/mcp.js:22-36 | of the lines a chunk completes, the first that carries a pending request's id resolves it with its frame, and a request none carries stays pending |
| UpdateStub.EveryRequestIsAnsweredOnce | docs/probes/2026-09-25-client-behaviour/updstub.js:160-211 | in every mode and run the ids answered and the ids held are together exactly the ids owed an answer, each as often as it was asked |
| UpdateStub.AnsweredAtOnce | docs/probes/2026-09-25-client-behaviour/updstub.js:160-211 | a request with an id gets exactly one response at once if and only if output is open, its method is no notification and it is no list that is held |
| UpdateStub.NeverUpdatingAgain | docs/probes/2026-09-25-client-behaviour/updstub.js:124-158 | once it does not update, no run makes the server update again |
| UpdateStub.NoCallIsServedWhileUpdating | docs/probes/2026-09-25-client-behaviour/updstub.js:190-207 | a run that still updates at its end has sent no served call and no unknown tool, only refusals |
| UpdateStub.HeldInOrder | docs/probes/2026-09-25-client-behaviour/updstub.js:175-181 | while the updater runs the held mode holds every list in the order of arrival |
| UpdateStub.HeldListsAreAnswered | docs/probes/2026-09-25-client-behaviour/updstub.js:143-151 | when the updater goes all held lists are answered once in that order, and none is held any more |
| UpdateStub.AtMostOneStaleRefusal | docs/probes/2026-09-25-client-behaviour/updstub.js:195-199 | in every run at most one call is refused as stale, and the list-changed notification is the frame before it |
| UpdateStub.StaleExactlyOnAFirstCall | docs/probes/2026-09-25-client-behaviour/updstub.js:73-75 | a call of a later launch is refused as stale if and only if no list and no call came before it on its connection |
| UpdateStubAnswers.EachGetsItsOwnAnswer | docs/probes/2026-09-25-client-behaviour/updstub.js:160-211 | over every run of every mode: the ids of the responses of each kind, of results, unknown tools, the two refusals of calls, lists, refused lists and the rest, are as multisets those that the events of the run entitle to them |
| UpdateStubAnswers.CallIsAnswered | docs/probes/2026-09-25-client-behaviour/updstub.js:190-209 | after any run, what a call is sent, told from the launch and the events before it |
| UpdateStubAnswers.ListIsAnswered | docs/probes/2026-09-25-client-behaviour/updstub.js:175-189 | after any run, what a list is sent: held, refused or answered, by mode and by whether the updater runs |
| UpdateStubAnswers.OtherIsAnswered | docs/probes/2026-09-25-client-behaviour/updstub.js:162-174 | after any run, what every other request is sent |
| UpdateStubAnswers.OnlyTheGoneUpdaterSends | docs/probes/2026-09-25-client-behaviour/updstub.js:124-158 | no event but a request sends anything, except the look that first finds the updater gone |
| UpdateStubAnswers.KnowsFromTheStart | docs/probes/2026-09-25-client-behaviour/updstub.js:74-79 | after any run, what the program remembers is what its events say: whether it updates, what was asked, whether it is ending and whether output is closed |
| UpdateStub.StartIsWell | docs/probes/2026-09-25-client-behaviour/updstub.js:76-79 | every mode starts in a state the run lemmas apply to |
| UpdateStub.Server.constructor | docs/probes/2026-09-25-client-behaviour/updstub.js:74-79 | the program starts in the state the mode, the launch and the updater's file determine |
| UpdateStub.Server.Handle | docs/probes/2026-09-25-client-behaviour/updstub.js:160-211 | the handler does what the specification's step says, in state and in output |
| UpdateStub.Server.AnswerList | docs/probes/2026-09-25-client-behaviour/updstub.js:175-189 | the same of a list request |
| UpdateStub.Server.AnswerCall | docs/probes/2026-09-25-client-behaviour/updstub.js:190-209 | the same of a call |
| UpdateStub.Server.AnswerHeldLists | docs/probes/2026-09-25-client-behaviour/updstub.js:149 | each held list is answered once, in order |
| UpdateStub.Server.Tick | docs/probes/2026-09-25-client-behaviour/updstub.js:124-158 | an interval does what the specification's step says |
| UpdateStub.Server.TimerFires | docs/probes/2026-09-25-client-behaviour/updstub.js:156-158 | the timer ends the conversation at most once |
| UpdateStub.Server.InputEnds | docs/probes/2026-09-25-client-behaviour/updstub.js:227 | the end of the input begins the end and closes no output |
| UpdateStub.Server.EndTheConversation | docs/probes/2026-09-25-client-behaviour/updstub.js:115-122 | the conversation ends once |
| DyingShim.LaunchKeeps | docs/probes/2026-09-24-q261/shim.js:66-156 | in every launch the answers counted are at most the calls seen, the ending body runs at most once, and for the count only at the configured count |
| DyingShim.OnlyOneDies | docs/probes/2026-09-24-q261/shim.js:142-156 | of all launches that share a marker at most one ends its server for the count, and none once the marker is there |
| DyingShim.ALaunchTellsItsHistory | docs/probes/2026-09-24-q261/shim.js:66-156 | in every launch, from its events alone: the calls and the answers counted, the ids that wait, whether the server was ended for the count and whether the marker is there |
| DyingShim.TheMarkerWriterDiesUnlessEnding | docs/probes/2026-09-24-q261/shim.js:146-154 | the answer that reaches the count writes the marker, and its shim dies for the count if and only if it was not ending already |
| DyingShim.AClientThatLeavesUsesTheDeathUp | docs/probes/2026-09-24-q261/shim.js:74-95 | a run after which no launch ever dies for the count, although none did |
| DyingShim.Shim.FromClient | docs/probes/2026-09-24-q261/shim.js:125-131 | a call's id is remembered as the specification says |
| DyingShim.Shim.FromServer | docs/probes/2026-09-24-q261/shim.js:142-156 | a matched answer counts, writes the marker and ends the server as the specification says |
| DyingShim.Shim.EndTheServer | docs/probes/2026-09-24-q261/shim.js:74-95 | the ending body runs once |
| LaunchNumbers.NumbersAreDistinct | docs/probes/2026-09-25-client-behaviour/updstub.js:33-45 | for every interleaving of launches the files stay exactly 1 to k, no two launches share a number, and 0 is left only when all 999 are taken |
| LaunchNumbers.FewLaunchesAllGetANumber | docs/probes/2026-09-25-client-behaviour/passthru.js:22-26 | with fewer than 1000 launches in an empty directory every launch that ends has a number |
| LaunchNumbers.Directory.TakeNumber | docs/probes/2026-09-25-client-behaviour/updstub.js:33-45 | one launch takes the least free number below 1000, or 0 when there is none |
| ProcessTree.Closure | docs/probes/2026-09-25-firefox-safe-mode/ffprobe2.js:51 | the fixpoint loop ends on every listing, cyclic ones too, with exactly the pids the root reaches |
| ProcessTree.Pass | docs/probes/2026-09-25-firefox-safe-mode/ffprobe2.js:51 | one pass adds only reachable pids, says whether it added any, and leaves a closed set if it did not |
| ProcessTree.TreeCmdlines | docs/probes/2026-09-25-firefox-safe-mode/ffprobe2.js:49-56 | the lines are exactly the reachable entries of the listing, each as often and in the order it has them, and none for pid 0 |
| ProcessTree.KeepIsTheSelection | docs/probes/2026-09-25-firefox-safe-mode/ffprobe2.js:51 | what is kept are exactly the entries of the set, each at its place of the listing and in order |
| ProcessTree.TheSearchEndsUnlessInACycle | docs/probes/2026-09-14-webp-ask/which-chromium.js:29-33 | the depth-first search ends if and only if its root is not its own descendant |
| ProcessTree.ARootInACycleNeverEnds | docs/probes/2026-09-14-webp-ask/which-chromium.js:29-33 | otherwise the stack holds a pid the root comes down from after any number of turns |
| ProcessTree.EndedIsTree | docs/probes/2026-09-14-webp-ask/which-chromium.js:29-34 | a search that has ended has found every proper descendant, each once |
| ProcessTree.TreeOf | docs/probes/2026-09-14-webp-ask/which-chromium.js:23-35 | the program's loops find every proper descendant, each once |
| ProcessTree.ByParent | docs/probes/2026-09-14-webp-ask/which-chromium.js:27-28 | the map lists each pid's children in the listing's order |
| ProcessTree.TheTwoAgree | docs/probes/2026-09-25-firefox-safe-mode/ffprobe2.js:51 | the two walks find the same processes, apart from the root |
| ImageSize.Dims | docs/probes/2026-09-14-webp-ask/raw-child.js:27-47 | the decoder reads inside every buffer, ends on every buffer and finds what the specification finds |
| ImageSize.Scan | docs/probes/2026-09-14-webp-ask/raw-child.js:30-36 | what the scan finds is a frame header inside the buffer, not before where it began |
| ImageSize.JpegDecodes | docs/probes/2026-09-14-webp-ask/raw-child.js:29-38 | a start of image, any segments that are none of the thirteen frame headers of Table B.1 of ITU-T T.81, any stray bytes between them, and one of the thirteen decode to that header's width and height |
| ImageSize.FrameMarkers | docs/probes/2026-09-14-webp-ask/raw-child.js:34 | the frame headers are the thirteen markers of that table, one by one |
| ImageSize.AProgressiveFile | docs/probes/2026-09-14-webp-ask/raw-child.js:31-34 | a progressive file's header, byte for byte, and one that ends right after its width and has no size |
| ImageSize.FormatIs | docs/probes/2026-09-14-webp-ask/raw-child.js:28-46 | the format goes by length and first bytes alone, and a file of no format has no size |
| ImageSize.NamesAreText | docs/probes/2026-09-14-webp-ask/raw-child.js:28-43 | the names that tell the formats apart are the source's own texts |
| ImageSize.OtherWebPHasNoSize | docs/probes/2026-09-14-webp-ask/raw-child.js:44 | a WebP file whose first chunk is another has no size |
| ImageSize.APngFile | docs/probes/2026-09-14-webp-ask/raw-child.js:28 | a PNG header's sizes, byte for byte |
| ImageSize.AnExtendedFile | docs/probes/2026-09-14-webp-ask/raw-child.js:41 | an extended WebP file's sizes, byte for byte |
| ImageSize.FillBytesAreALength | docs/probes/2026-09-14-webp-ask/raw-child.js:31-36 | after any number of fill bytes before any marker the scan goes on, in a file of any size, where the bytes after the second fill byte say, taken for a length |
| ImageSize.FillBytesHideTheSize | docs/probes/2026-09-14-webp-ask/raw-child.js:31-37 | with one fill byte or more before any marker of 0xC0 or above, no size is found in a file that ends within 48 KiB of them |
| ImageSize.PngDecodes | docs/probes/2026-09-14-webp-ask/raw-child.js:28 | a PNG header decodes to the sizes it was written with |
| ImageSize.ExtendedWebPDecodes | docs/probes/2026-09-14-webp-ask/raw-child.js:41 | the 24-bit fields of an extended WebP decode to the sizes they were written with |
| ImageSize.LosslessWebPDecodes | docs/probes/2026-09-14-webp-ask/raw-child.js:42 | the packed 14-bit fields of a lossless WebP come apart again, also when the 32-bit operators see a negative number |
| ImageSize.LossyWebPDecodes | docs/probes/2026-09-14-webp-ask/raw-child.js:43 | the 14-bit fields of a lossy WebP decode to the sizes they were written with, whatever the scaling bits |
| Texts.Utf8OfTwo | docs/probes/2026-08-18-truncation/probe-server.js:25 | the bytes of two texts joined are the bytes of both, unless a high surrogate at the end of the one meets a low one at the start of the other |
| Texts.UnitBytesAreUtf8 | docs/probes/2026-08-18-truncation/probe-server.js:25 | the bytes of a unit give its code point back, in the shortest form |
| Texts.PairBytesAreUtf8 | docs/probes/2026-08-18-truncation/probe-server2.js:21 | the four bytes of a surrogate pair give its code point back |
| Texts.SurrogatesAreUtf8 | docs/probes/2026-08-18-truncation/probe-server.js:25 | a pair gives its four bytes, and a lone surrogate those of U+FFFD |
| Texts.CutsAPair | docs/probes/2026-08-18-truncation/probe-server3.js:4-6 | a cut of a paired text leaves a lone surrogate if and only if the unit before it is a high one |
| Builders.GrowMultibyte | docs/probes/2026-08-18-truncation/probe-server.js:31-48 | the nested loops build the specification's text |
| Builders.GrowToMark | docs/probes/2026-08-18-truncation/probe-server.js:42-44 | em dashes and x's fill the gap to the byte, although the dashes step by three |
| Builders.MultibyteIsExact | docs/probes/2026-08-18-truncation/probe-server.js:40-48 | every marker's bytes stand right before the byte where it ends, and the whole is the target and at most two bytes more |
| Builders.ExactWhenFeasible | docs/probes/2026-08-18-truncation/probe-server.js:41-45 | every marker ends exactly at its offset if and only if each offset leaves room after the one before |
| Builders.TheFirstRoundTellsBytesFromUnits | docs/probes/2026-08-18-truncation/probe-server.js:32-46 | the first round's marks lie over 2048 bytes and under 2048 units, or over both, as their comments say, and its text is 7801 bytes |
| Builders.FillIsFillersFirst | docs/probes/2026-08-18-truncation/probe-server.js:42-43 | the fill before a mark is whole fillers and then less than one filler of x's |
| Builders.MultibyteEndsInDashes | docs/probes/2026-08-18-truncation/probe-server.js:46 | after its last mark the text is em dashes alone |
| Builders.GrowAstral | docs/probes/2026-08-18-truncation/probe-server2.js:24-33 | the nested loops build the specification's text |
| Builders.AstralIsExact | docs/probes/2026-08-18-truncation/probe-server2.js:24-33 | every marker stands right before the unit where it ends, and the whole is the target or one unit less |
| Builders.AstralEndsInPairs | docs/probes/2026-08-18-truncation/probe-server2.js:31 | after its last mark the text is pairs alone |
| Builders.AstralIsPaired | docs/probes/2026-08-18-truncation/probe-server2.js:24-33 | the whole text has no lone surrogate |
| Builders.ParityStartsAnew | docs/probes/2026-08-18-truncation/probe-server2.js:59-69 | after a marker every second unit is a high surrogate from the first one on, whatever the prefix was |
| Builders.TheSecondRoundIsNotSplit | docs/probes/2026-08-18-truncation/probe-server2.js:59-69 | for every prefix that fits, unit 2047 of the second round's text is a low surrogate and a cut at 2048 leaves none alone |
| Builders.GrowSplit | docs/probes/2026-08-18-truncation/probe-server3.js:12-15 | the loop builds the specification's text |
| Builders.SplitAtOddDistance | docs/probes/2026-08-18-truncation/probe-server3.js:10-20 | a cut inside the run of pairs leaves a lone surrogate if and only if it is an odd number of units after the prefix, which is when the check passes |
| Builders.SplitEndsInItsMarker | docs/probes/2026-08-18-truncation/probe-server3.js:12-15 | the text is its prefix, pairs up to the length asked for or one unit more, and its marker at the very end |
| Builders.TheThirdRoundIsSplit | docs/probes/2026-08-18-truncation/probe-server3.js:12-20 | the check on unit 2047 passes, and a cut at 2048 splits a pair, exactly for prefixes of odd length |
| Builders.RunAlternates | docs/probes/2026-08-18-truncation/probe-server3.js:10-11 | in a run of pairs the i-th unit is a high surrogate if and only if i is even |
| AsciiTexts.Ascii | docs/probes/2026-08-18-truncation/probe-server.js:14-23 | the in-place writes leave each element to the last marker that covers it, and the check fails on the first marker that begins before the text |
| AsciiTexts.Write | docs/probes/2026-08-18-truncation/probe-server2.js:14-17 | one marker's writes change exactly the elements it covers |
| AsciiTexts.AsciiIsExact | docs/probes/2026-08-18-truncation/probe-server.js:13-23 | markers that fit end exactly at their offsets, the text has exactly the length asked for, and the rest is filler |
| AsciiTexts.TheLastMarkDecides | docs/probes/2026-08-18-truncation/probe-server2.js:14-17 | where markers overlap the last one that covers an element decides it |
| AsciiTexts.OneMarkStandsExactly | docs/probes/2026-08-18-truncation/probe-server2.js:11-19 | a marker of its own ends at its offset if and only if it begins inside the text or right at its end |
| AsciiTexts.PastTheEnd | docs/probes/2026-08-18-truncation/probe-server2.js:14-18 | the holes before a marker written past the end close up again |
| Percentile.RankIsRight | docs/probes/2026-09-25-firefox-safe-mode/analyze.py:14-17 | what stands up to the position is no greater than the percentile, what stands from there on no less |
| Percentile.LiesInRange | docs/probes/2026-09-25-firefox-safe-mode/analyze.py:10-17 | a percentile lies between the least and the greatest element, and is those at 0 and 1 |
| Percentile.HitsEveryElement | docs/probes/2026-09-25-firefox-safe-mode/analyze.py:14-17 | at the i-th of the equal steps it is the i-th element |
| Percentile.LinearBetweenNeighbours | docs/probes/2026-09-25-firefox-safe-mode/analyze.py:17 | between two neighbours it is linear |
| Percentile.Monotone | docs/probes/2026-09-25-firefox-safe-mode/analyze.py:14-17 | it never falls as p grows, across the segments too |
| Percentile.OrderDoesNotMatter | docs/probes/2026-09-25-firefox-safe-mode/summary.py:13-18 | the order of the input plays no part, for any p |
| Percentile.SortedIsUnique | docs/probes/2026-09-25-firefox-safe-mode/summary.py:14 | there is one way to sort |
| Percentile.TheTwoReportsAgree | docs/probes/2026-09-25-firefox-safe-mode/summary.py:13-18 | with Python's truncation and indexing computed, both reports give the percentile of every list but the empty one, on which one has no value and the other fails |
| Percentile.FailsOutside | docs/probes/2026-09-25-firefox-safe-mode/summary.py:15-18 | for every p the reading fails if and only if the truncated position lies outside the list, counted from either end |
| Percentile.IntDropsAFraction | docs/probes/2026-09-25-firefox-safe-mode/summary.py:16 | truncation drops a fraction of the number's own sign |
| Percentile.ItemsFromBothEnds | docs/probes/2026-09-25-firefox-safe-mode/summary.py:18 | a negative index counts from the end, and any other outside the list fails |

## Left out

- Win32, COM, the Task Scheduler, job objects and windows: foreign calls, of which only the outcomes are kept.
- The image check before a process is ended is any refusal of `EndKill`; that the image lies under the install root is not part of this model.
- How the steps of several processes interleave is a transition system on values; the classes and methods of `LifecyclePrograms.dfy` follow one program from end to end with nobody in between, and there no disposal throws, no session-end notice comes and the pipe's holder stays as the start found it.
- What `ExitedAsync` notes of an exit, its code and its time, is not part of this model: a relay that writes it is two events that read the unmarked record of a process that is gone and write it again.
- A record that does not parse reads as absent; here that is one of the ways in which a read fails.
- Exit codes, log messages, the wording of sentences and the address that an answer carries.
- `PersonStart` counts the read of the saved definition as one call with the scheduler's bound; the reads and writes of the record and the ending of a process are one duration, since the code gives them no bound.
- The clock of `PersonStart` is one clock for the deadline and the timers; how coarse each is shows only as how late a timer may fire, and none fires early.
- JSON parsing and the decoding of each chunk's bytes: framing begins at texts, and a frame is a datatype or unparsed. A frame that parses to null, which makes some handlers throw, is not part of this model.
- Trimming knows ECMAScript's white space; a line is otherwise any sequence of units.
- What the stand-in server logs and the files it leaves, and which client it addresses in its sentences.
- Launches of the shim that overlap: launches that share a marker follow one another.
- `ProcessTree.TreeOf` takes a root that is not its own descendant and a listing that names no pid twice: on any other root the program does not end, which `TheSearchEndsUnlessInACycle` states. A failed listing is left out.
- `summariseTree`, which counts lines by their text.
- JPEG files with fill bytes or standalone markers before the frame header are not among those that decode.
- The percentile is over real numbers, so rounding is left out; what it promises is proved for p between 0 and 1.
- The relay engine, the idle countdown, the session lock and the update core are not part of this model.
- `ClientState`, `AppState`, `StatusReport`, the argument readers and the tables of bounds: finite case tables and constants, of which only the bounds appear, as parameters.

# Verified model of vinga-server's stateful core and two of its scripts

vinga-server serves voice conversations. This project models the parts of it whose
correctness is spread over several calls, and proves what they promise over every
input, every interleaving or every run.

- **Worlds** (`Worlds`, `Lifecycle`, `Naming`, `MarkRead`). A server replaces the
  world it answers from while conversations still speak through older ones. Worlds share
  engines, and an engine is closed by whoever held it last. Renames are kept in a ledger
  that a world hears from its watermark on, and a comparison of stored against running
  configuration is answered only for a world that held still.
- **Admission** (`Admission`). A capacity and a latch, with a signal that may land between
  any two statements of an admission or of the end of a build.
- **Captures** (`Timeline`, `Arrivals`, `Capture`). Two channels placed by arrival, buffered,
  flushed with a lag, interleaved and cut into clips, proved against writing onto two silent
  lines what arrived.
- **Traces** (`OrderedDict`, `HeldTurns`, `TurnRace`, `TurnHistory`, `TraceFold`,
  `TraceEvents`, `Retention`). Events folded into spans; roots held until their transcript is
  settled, while four paths race to end them.
- **Content export** (`Json`, `JsonReading`, `ContentSlots`, `Staging`, `ExportReading`,
  `LlmExport`). Bounded staging with eviction, a ledger of outcomes that spans the exporter's
  slots, and what a reader makes of what is exported.
- **The changelog fold** (`Lines`, `Headings`, `ChangelogParse`, `Subsequence`,
  `ChangelogAppend`, `ChangelogFold`, `ChangelogNames`, `ChangelogChecks`, `ChangelogTwins`,
  `ChangelogFiled`, `ChangelogRefused`, `Fragments`, `ChangelogHashes`, `FoldMutate`). A
  permissive parser, an insertion and what it files where, its post-conditions and when each
  refuses, and a disk mutation in which any step may fail.
- **Latency** (`WireLatency`) and **clip filing** (`ClipFiling`, `ClipFates`).

`Wrappers` and `Seqs` hold what several of these share.

A class holds the fields the source updates in place, and each of its methods is proved
against a function on values; lemmas and runs are about those functions. Identity of an
object is an identifier. Every stretch of code with no await in it, every locked section
and, where a signal matters, every statement is one step. What other systems answer (a
disk, a far side, a model, a scheduler) is an input or a free choice, so what is proved holds
for all of it.

## Where the code and its promises part

- A disposal's `held` is read when its task is created, not when its body runs
  (`registry.py:207`), so it may miss a conversation that came since.
  `Lifecycle.StaleSnapshotClosesUnderAConversation` is a run in which one loses its engine.
  `HoldersKeptExactly` says of all runs when every conversation keeps its world.
- What a disposal closes is compared with the current world and the retired ones that stay,
  not with held worlds let go of earlier, which the comment has it compared with too
  (`generation.py:378-383`). `Lifecycle.ToldDisposalClosesUnderAConversation` is a run in
  which a disposal that knows every bound world closes an engine under one.
  `DisposalClosesUnderAHolderExactly` says when one disposal does, `EnginesOpenExactly` says
  of all runs when none does.
- Strict indexing of the closed recording holds for session limits that are whole frames, and
  for no others (`Timeline.EventsInsideTheFile`, `FractionalLimitOvershoots`).
- A turn root entered under a key already held is lost without an end
  (`TurnRace.ReenteringLosesARoot`); keys are unique as long as a session's utterances are.
- The retention comment (`telemetry.py:1404-1407`) says concurrent opens never evict a live
  session. They do not at once, but a session that stays open loses its context to enough
  others that come and go, with never more than two open together
  (`Retention.OpenSessionLosesItsContext`, `NeverMoreThanTwo`). What holds exactly is
  `HeldThroughoutExactly`: opens of sessions still held take nothing away, and a context goes
  with the entry that fills the bound behind it.
- `observe` drops a round that holds a lone surrogate, although the final rendering would
  escape and admit it (`LlmExport.KeptExactly`, `LoneSurrogateIsLost`).
- Exported JSON is read as what was asked and heard, but for a high surrogate right in front of
  a low one in some text, which a reader takes for one character
  (`JsonReading.ReadsBackExactly`).
- A line of two hashes followed by nothing but space passes the fragment check, which strips
  all trailing space, and opens a section for the parser, which strips only the line ending
  (`Headings.CheckMissesExactly`, `Fragments.CheckedEntriesExactly`;
  `ChangelogHashes.HashesPassTheCheck` is such a fragment). The fold then refuses what it
  wrote, whatever the changelog (`ChangelogHashes.HashesRefused`), so a folding of checked
  fragments holds only entries the fold can place or is refused (`PlacedOrRefused`).
- A blank line added to an undated section is recorded as a touched date although no section
  has that date, so the fold refuses its own output (`ChangelogChecks.OutsideChangedExactly`;
  `ChangelogHashes.UnreleasedRefused` is such a changelog).
- Sections of one date are all compared with the last of them
  (`ChangelogTwins.MalformedExactly`; `TwinsRefused` is a changelog refused for it).
- An utterance whose last sample lies at time zero is reported by its first
  (`WireLatency.ReportedIsTheRunExactly`; `DecidedAtZeroIsLost` is a track it happens to).

## Model

| member | source | states |
|---|---|---|
| Worlds.Generations.Renamed | vinga-server/src/vinga_server/generation.py:224-242 | a rename is appended to the ledger and nothing else moves |
| Worlds.Generations.RenamesForWorld | vinga-server/src/vinga_server/generation.py:244-261 | a world hears exactly the ledger from its watermark on; one never stamped hears all of it |
| Worlds.Generations.InstallWorld | vinga-server/src/vinga_server/generation.py:341-359 | the current world is retired and the new one stamped with the place its snapshot was read at; watermark keys stay exactly the current and retired worlds |
| Worlds.Generations.EnterApply | vinga-server/src/vinga_server/generation.py:307-339 | while an apply is open the mark answers nothing |
| Worlds.Generations.LeaveApply | vinga-server/src/vinga_server/generation.py:307-339 | an apply that ends, installed or not, counts once and closes |
| Worlds.Generations.Dispose | vinga-server/src/vinga_server/generation.py:361-409 | whatever is not held and not current is let go, its watermark with it; what is handed to the closer is each engine no world still around uses, once |
| Worlds.Generations.LastOwned | vinga-server/src/vinga_server/generation.py:425-446 | engines of the worlds let go that neither the current nor a retired world still uses, without repeats |
| Worlds.Generations.Aclose | vinga-server/src/vinga_server/generation.py:411-423 | at the end of the process every engine of every world is handed over, none twice, retired worlds' first |
| Worlds.DisposeSplits | vinga-server/src/vinga_server/generation.py:390-409 | a disposal keeps of the retired worlds exactly those held, and parts the engines in use into those still owned and those handed over, with nothing in both and nothing in neither |
| Worlds.InstallWellFormed | vinga-server/src/vinga_server/generation.py:341-359 | an install keeps worlds distinct and watermarks for exactly the worlds around, so the map cannot grow with past applies |
| Lifecycle.NextKeepsInv | vinga-server/src/vinga_server/generation.py:341-446 | every step of bind, swap, dispose, close and exit keeps: installed engines are the disjoint union of closed, closing and owned |
| Lifecycle.EveryEngineAccounted | vinga-server/src/vinga_server/generation.py:361-409 | over every interleaving from boot each engine is closed, closing or owned, never two of these, and never closed twice |
| Lifecycle.EverythingClosedOnce | vinga-server/src/vinga_server/generation.py:411-423 | once the process has let go and the closer caught up, every engine ever installed was closed exactly once |
| Lifecycle.DisposalKeepsHoldersExactly | vinga-server/src/vinga_server/generation.py:361-409 | a disposal leaves every conversation its world if and only if what it was told covers every conversation on a retired world |
| Lifecycle.HoldersKeptExactly | vinga-server/src/vinga_server/registry.py:197-211 | over every run from boot, exit included, every conversation keeps its world at every moment if and only if each disposal, as its body starts, was told of every conversation on a retired world |
| Lifecycle.TimelyIsTold | vinga-server/src/vinga_server/registry.py:181-211 | wherever a run has come to, a disposal created since the last swap is told, whoever came or left meanwhile |
| Lifecycle.DisposalClosesUnderAHolderExactly | vinga-server/src/vinga_server/generation.py:425-446 | whether or not worlds were let go before, a disposal closes an engine under a conversation if and only if the conversation speaks through one that only retired worlds outside what it was told use |
| Lifecycle.EnginesOpenExactly | vinga-server/src/vinga_server/generation.py:361-446 | over every run from boot, exit included, no engine of a bound or current world is closed at any moment if and only if no step hands over an engine some conversation speaks through |
| Lifecycle.NoEngineClosedUnderAConversation | vinga-server/src/vinga_server/generation.py:361-409 | over every run in which each disposal is told, and until the current world is let go, no engine of a bound or current world is closed at any moment |
| Lifecycle.StaleSnapshotClosesUnderAConversation | vinga-server/src/vinga_server/registry.py:197-211 | a run that breaks the promise: the snapshot is taken when the task is created, and a conversation bound since loses its engine |
| Lifecycle.ToldDisposalClosesUnderAConversation | vinga-server/src/vinga_server/generation.py:425-446 | a run in which the stale disposal closes nothing, because a later world carries the engine over, and the next one, told of every bound world, closes it under the conversation |
| Lifecycle.NothingLingers | vinga-server/src/vinga_server/generation.py:361-409 | over every run in which a conversation binds once, a retired world nobody speaks through has a disposal on its way that was not told of it; with none outstanding there is no such world |
| Naming.RenameTranslates | vinga-server/src/vinga_server/conversations/store.py:475-512 | composing one more rename moves every agent that has the old name and touches no stranger that took it |
| Naming.RowsFiledUnderCurrentNames | vinga-server/src/vinga_server/generation.py:244-285 | over every history of renames, additions, removals, reads, applies and disposals a world still around, told what it has not heard, calls every shared agent what the store calls it now |
| Naming.StampedAtInstallMisfiles | vinga-server/src/vinga_server/generation.py:263-285 | stamping at the install instead of at the read would misfile: a concrete history |
| Naming.RepeatExactly | vinga-server/src/vinga_server/conversations/store.py:503-512 | a rename changes nothing if and only if its old name is a source already and no agent is called by it any longer |
| Naming.ComposeTwice | vinga-server/src/vinga_server/conversations/store.py:503-512 | so a rename heard again at once changes nothing |
| Naming.RegisteredAtAnyMoment | vinga-server/src/vinga_server/conversations/store.py:454-472 | a session registered at any moment, between the two halves of a rename's publication included, ends with exactly the renames its world had not heard |
| Naming.HeardLateMisfiles | vinga-server/src/vinga_server/conversations/store.py:475-512 | two renames behind it would not do: a concrete ledger in which a late repeat misfiles an agent |
| MarkRead.EqualMarksExactly | vinga-server/src/vinga_server/generation.py:287-305 | two samples are one number if and only if no apply was open at the first and none began, installed or ended between; then one world was current throughout |
| MarkRead.TwoUnstableSamplesAgree | vinga-server/src/vinga_server/app.py:1070-1083 | equality without the test for nothing would accept two moments inside two applies |
| MarkRead.DiffRead | vinga-server/src/vinga_server/app.py:1070-1083 | the comparison answers exactly when one of its three loads was undisturbed, from the first such load, with the world that was current for the whole of it |
| Admission.SessionRegistry.Admit | vinga-server/src/vinga_server/registry.py:126-160 | whatever statements a signal lands between, the answer and what is left of the registry: a session not already held keeps a slot exactly when told it is admitted |
| Admission.SessionRegistry.StopAdmitting | vinga-server/src/vinga_server/registry.py:108-124 | the latch is set and nothing else changes |
| Admission.SessionRegistry.Remove | vinga-server/src/vinga_server/registry.py:181-195 | the session and its world go; a disposal is asked for exactly when it had a world |
| Admission.CapacityHolds | vinga-server/src/vinga_server/registry.py:88-160 | over every run of admissions, removals and signals live sessions never exceed the maximum |
| Admission.SlotsExactly | vinga-server/src/vinga_server/registry.py:126-195 | over every run a session has a slot if and only if a call told it so and it has not left since |
| Admission.LatchedExactly | vinga-server/src/vinga_server/registry.py:108-160 | and admission has stopped if and only if a signal came, by itself or within an admission |
| Admission.AnswersExactly | vinga-server/src/vinga_server/registry.py:80-160 | after any run: admitted if and only if no signal has come by the second look and fewer sessions hold slots than may, full if and only if as many do and no signal came by the first, and draining otherwise |
| Admission.LatchHolds | vinga-server/src/vinga_server/registry.py:108-160 | once set the latch stays set and no session gains a slot |
| Admission.Application.StopAdmitting | vinga-server/src/vinga_server/app.py:150-178 | the intent stands on the seed, and a composition already serving is draining |
| Admission.Application.Publish | vinga-server/src/vinga_server/app.py:809-818 | a build that returns has a draining registry if and only if a signal has arrived, wherever it landed |
| Timeline.BlockLies | vinga-server/src/vinga_server/capture.py:421-438 | in a line of blocks placed in order every block lies unmodified at its place |
| Timeline.SilentBetween | vinga-server/src/vinga_server/capture.py:209-226 | a frame no block covers is silence |
| Timeline.PrefixStands | vinga-server/src/vinga_server/capture.py:440-453 | later blocks change nothing of what is already written |
| Timeline.PlacedByTheClock | vinga-server/src/vinga_server/capture.py:421-438 | what has been flushed decides no placement: audio no more than the flush lag behind any before it goes to its own frame, or right behind what its line holds |
| Arrivals.RecordTells | vinga-server/src/vinga_server/capture.py:413-502 | for every limit and all arrivals the record holds what was accepted and nothing else: a block for each piece of audio with the samples that came, in order, at its own frame or right behind its line or the file; a turn for each kept utterance, with the reply blocks of its window |
| Arrivals.LaidInTime | vinga-server/src/vinga_server/capture.py:421-438 | audio no more than the flush lag behind any before it lies at its own frame or right behind its line |
| Arrivals.SpanOfWindow | vinga-server/src/vinga_server/capture.py:229-284 | a turn's span runs from the first reply block of its window to the end of the last one that starts below the limit, and there is none where none does |
| Timeline.SpanInside | vinga-server/src/vinga_server/capture.py:504-519 | a turn's span lies inside the closed file and below the limit |
| Timeline.SpansApart | vinga-server/src/vinga_server/capture.py:499-519 | spans of successive turns are in order and do not overlap |
| Timeline.OffsetConvertsBack | vinga-server/src/vinga_server/capture.py:281-284 | a millisecond offset of the manifest converts back to its exact frame |
| Timeline.OffsetReadsBack | vinga-server/src/vinga_server/capture.py:561-587 | an event's offset, rounded to a tenth of a millisecond, reads back as its frame or the one before it |
| Timeline.IndexesStrictlyExactly | vinga-server/src/vinga_server/capture.py:375-384 | every moment inside the limit falls in a frame below it if and only if the limit is a whole number of frames |
| Timeline.EventsInsideTheFile | vinga-server/src/vinga_server/capture.py:561-661 | over every recording from its opening to its close, every event's rounded offset reads back strictly inside the closed file if and only if the limit is a whole number of frames |
| Timeline.TrackIsEvents | vinga-server/src/vinga_server/capture.py:546-587 | the decision track holds every event that came before anything ended the recording, in order, and no other |
| Timeline.FractionalLimitOvershoots | vinga-server/src/vinga_server/capture.py:375-384 | without one an event can fall on the frame the file stops short of |
| Capture.Interleave | vinga-server/src/vinga_server/capture.py:178-191 | equal lengths give one stereo buffer with each sample in its channel; unequal ones give none |
| Capture.Channel.Add | vinga-server/src/vinga_server/capture.py:209-217 | a block is laid over the buffer at its offset, the gap filled with silence |
| Capture.Channel.Take | vinga-server/src/vinga_server/capture.py:219-226 | what is taken is the front of the buffer, filled with silence, and the rest stays |
| Capture.OverlayBuffers | vinga-server/src/vinga_server/capture.py:209-217 | a buffer that holds a line from the flushed frame on still does after a block is added to both |
| Capture.RestBuffers | vinga-server/src/vinga_server/capture.py:219-226 | and after its front is taken |
| Capture.PlaceInClip | vinga-server/src/vinga_server/capture.py:251-267 | a clip starts at its first sample and continues with silence and samples up to the limit |
| Capture.SessionCapture.Flush | vinga-server/src/vinga_server/capture.py:440-453 | both channels are committed up to one frame, never backwards; the file stays the naive line |
| Capture.SessionCapture.Microphone | vinga-server/src/vinga_server/capture.py:413-438 | one more arrival: the recording is what the naive run makes of all that arrived, block by block |
| Capture.SessionCapture.Reply | vinga-server/src/vinga_server/capture.py:417-438 | the same for the reply, which feeds the open window's clip with the same placement |
| Capture.SessionCapture.UtteranceAudio | vinga-server/src/vinga_server/capture.py:455-502 | a turn closes the window before it and opens its own, unless its id cannot name a file |
| Capture.SessionCapture.Event | vinga-server/src/vinga_server/capture.py:561-587 | an event advances the file's end to its frame and is written with that frame's rounded offset |
| Capture.SessionCapture.Close | vinga-server/src/vinga_server/capture.py:605-661 | the recording ends once, with the naive file's frames and header |
| Capture.SessionCapture.ClosedFile | vinga-server/src/vinga_server/capture.py:605-661 | the closed file is what arrived: every sample accepted below the limit is at its frame of its channel, every other frame is silence, and the file reaches to the end of the audio and of the last event, four bytes a frame in the header |
| Capture.SessionCapture.ClipsAreCuts | vinga-server/src/vinga_server/capture.py:229-284 | the turns are the kept utterances that arrived, in order, each with what it answers as its heard clip; a reply clip is channel 1 of the closed file over the blocks paced in its turn's window, and the clips keep the turns' order |
| OrderedDict.DropValid | vinga-server/src/vinga_server/telemetry.py:3039-3045 | taking a key out of an ordered map takes one entry if it is there, and key and order keep telling the same |
| OrderedDict.DropKeepsOrder | vinga-server/src/vinga_server/telemetry.py:3039-3045 | and the rest keep their order: what stood before the key, then what stood behind it |
| HeldTurns.Turns.CloseTurn | vinga-server/src/vinga_server/telemetry.py:3031-3045 | entering a root evicts at most one, leaves its key as a tombstone, and keeps both maps within the bound |
| HeldTurns.Turns.PopTurn | vinga-server/src/vinga_server/telemetry.py:2405-2432 | a caller is answered settled with the root, omitted, or missing, and the key is in neither map afterwards |
| HeldTurns.Turns.Acknowledge | vinga-server/src/vinga_server/telemetry.py:2434-2441 | a tombstone is handed over once |
| HeldTurns.Turns.TakeAll | vinga-server/src/vinga_server/telemetry.py:2443-2451 | shutdown takes every root still held, in order, and leaves none |
| TurnRace.NextKeepsInv | vinga-server/src/vinga_server/telemetry.py:2405-2458 | every locked section, every end outside the lock and every count keeps each root in one place |
| TurnRace.NeverEndedTwice | vinga-server/src/vinga_server/telemetry.py:2405-2458 | over every interleaving no root is ended twice or at another time than its own, and both maps stay bounded |
| TurnRace.AllEndedBeforeShutdown | vinga-server/src/vinga_server/telemetry.py:2626-2656 | once the provider may be shut down every root ever held was ended exactly once at its recorded time |
| TurnRace.WaitCanEnd | vinga-server/src/vinga_server/telemetry.py:2443-2458 | however a run came to the release, ends and counts alone lead from there to the end of the wait |
| TurnRace.WaitEnds | vinga-server/src/vinga_server/telemetry.py:2443-2458 | and nothing can put it off: there are only so many of those steps to take whatever happens between them, and after that many the wait is over |
| TurnRace.OneFateEach | vinga-server/src/vinga_server/telemetry.py:2405-2458 | every key was settled by exactly one caller, evicted, or released by the shutdown, and only one of these |
| TurnHistory.HeldAreWaiting | vinga-server/src/vinga_server/telemetry.py:2405-2458 | over every run the roots held are those of the keys entered and not settled, evicted or released since, oldest first, and the tombstones those of the keys evicted and neither handed over nor given way since |
| TurnHistory.EvictsOldest | vinga-server/src/vinga_server/telemetry.py:3039-3045 | at every close of every run the oldest of all that wait is evicted if and only if they are one more than the bound, its root for the closing caller to end; and so the oldest tombstone gives way |
| TurnHistory.OnlyClosesEvict | vinga-server/src/vinga_server/telemetry.py:2405-2458 | nothing but a close evicts, or makes a tombstone give way |
| TurnHistory.NewestStays | vinga-server/src/vinga_server/telemetry.py:3031-3045 | with a positive bound the root just entered is held, and below the bound nothing is evicted |
| TurnHistory.AnswersExactly | vinga-server/src/vinga_server/telemetry.py:2405-2432 | a settle is answered settled if and only if the key waits, omitted if and only if its tombstone stands, and missing for any other |
| TurnRace.ReenteringLosesARoot | vinga-server/src/vinga_server/telemetry.py:3031-3038 | entering a root loses another without ending it exactly when its key is already held |
| TraceFold.Telemetry.Fold | vinga-server/src/vinga_server/telemetry.py:2660-2682 | every event of the table, folded as its own section says, keeps what every run keeps |
| TraceFold.Telemetry.TakeSessionOpen | vinga-server/src/vinga_server/telemetry.py:2771-2810 | a session's first open starts its span; a second does nothing |
| TraceFold.Telemetry.TakeSessionClosed | vinga-server/src/vinga_server/telemetry.py:2876-2895 | the session's span is ended; an open turn or playback is let go of unended |
| TraceFold.Telemetry.TakeTurnStarted | vinga-server/src/vinga_server/telemetry.py:2897-2972 | a turn is opened and linked, with its state reset, unless one is open, which is said once a session |
| TraceFold.Telemetry.TakeReplyFinished | vinga-server/src/vinga_server/telemetry.py:3014-3038 | the open turn is ended, or handed over to be held where its transcript is awaited |
| TraceFold.Telemetry.TakeAsr | vinga-server/src/vinga_server/telemetry.py:3111-3167 | a transcription becomes a span, or a note on the turn where that turn has had one and this one did not fail |
| TraceFold.Telemetry.TakeProviderFailed | vinga-server/src/vinga_server/telemetry.py:3169-3216 | a failure becomes a failed span of its stage, and one of synthesis waits for its stream's end |
| TraceFold.Telemetry.TakeSynthesized | vinga-server/src/vinga_server/telemetry.py:3341-3378 | a stream's end is used up by a waiting failure or becomes a span |
| TraceFold.Telemetry.TakeSpeakingStarted | vinga-server/src/vinga_server/telemetry.py:3380-3403 | playback opens under an open turn where none is open |
| TraceFold.Telemetry.TakeSpeakingFinished | vinga-server/src/vinga_server/telemetry.py:3405-3418 | an open playback is ended |
| TraceFold.NextKeepsInv | vinga-server/src/vinga_server/telemetry.py:2660-2682 | whatever event comes next on whatever session, the invariant holds |
| TraceFold.EverySpanHasOneFate | vinga-server/src/vinga_server/telemetry.py:2876-3054 | over every input no span is ended twice, and each is exactly one of ended, handed over, still open, or let go of on purpose |
| TraceFold.OneTranscription | vinga-server/src/vinga_server/telemetry.py:3111-3167 | among a turn's transcriptions only the first can be anything but failed |
| TraceFold.OpenTurnIsNeverReplaced | vinga-server/src/vinga_server/telemetry.py:2897-2929 | no event but a finished reply or the session's close takes an open turn from its session |
| TraceFold.OpenTurnIsNotEnded | vinga-server/src/vinga_server/telemetry.py:2897-3038 | and none ends its span |
| TraceFold.OthersAreUntouched | vinga-server/src/vinga_server/telemetry.py:2660-2682 | an event of one session leaves every other session's trace alone |
| TraceFold.ClosedSpansAreFrozen | vinga-server/src/vinga_server/telemetry.py:2876-3054 | nothing about a span changes once it is no longer open |
| TraceFold.ClosedSpansStayClosed | vinga-server/src/vinga_server/telemetry.py:2876-3054 | and no event opens it again |
| TraceFold.EachFailureAbsorbsOne | vinga-server/src/vinga_server/telemetry.py:3341-3359 | in any list of failures and stream ends, hence in every front of it, failures are as many as the ends used up and the failures still waiting |
| TraceFold.AwaitingIsLargestExcess | vinga-server/src/vinga_server/telemetry.py:3341-3359 | what is waited for is the largest excess of failures over ends of any stretch up to now |
| TraceFold.TraceFollowsEvents | vinga-server/src/vinga_server/telemetry.py:2897-3378 | over every input a session's trace is there, is in a turn and has heard what its own events say, the synthesis events counted from where its last turn opened |
| TraceFold.StreamEndsExactly | vinga-server/src/vinga_server/telemetry.py:3341-3378 | over every input, one more stream's end makes a span if and only if no failure among the session's events since its last turn opened is left waiting; failures equal ends used up plus failures waiting |
| TraceEvents.StateIsSaid | vinga-server/src/vinga_server/telemetry.py:2771-3418 | over every input a session's trace is what its events say: which spans are its own, its turn's and its playback's, what the turn answers, whether it was transcribed, and whether a second start was reported |
| TraceEvents.EachEventDoes | vinga-server/src/vinga_server/telemetry.py:2660-2682 | over every input what one more event does to the spans is read off the events before it: what it adds, under which span and from when, what it ends, notes or hands over, and nothing else |
| TraceEvents.FinishedTurn | vinga-server/src/vinga_server/telemetry.py:3014-3038 | a finished turn's span gets its one end there if no collaborator was registered or the turn said no utterance, and is otherwise handed over once with that utterance and end, and gets none |
| TraceEvents.FateIsFinal | vinga-server/src/vinga_server/telemetry.py:2876-3054 | and whatever comes after, a span no longer open stays as it is and what was handed over stays handed over |
| Retention.Retained.Remember | vinga-server/src/vinga_server/telemetry.py:2847-2874 | a context is entered and the oldest given up over the bound |
| Retention.RetainStep | vinga-server/src/vinga_server/telemetry.py:2847-2874 | a context is given up exactly when it has the bound's number behind it; one opened again keeps its place |
| Retention.HeldThroughoutExactly | vinga-server/src/vinga_server/telemetry.py:2847-2874 | a context is there for all of some opens if and only if the keys they enter that were not held, with those entered after it before, are fewer than the bound |
| Retention.StillThereExactly | vinga-server/src/vinga_server/telemetry.py:2847-2874 | for a context just entered: fewer such entries than the bound |
| Retention.OpenSessionLosesItsContext | vinga-server/src/vinga_server/telemetry.py:1398-1407 | for every bound a run in which a session that stays open loses its context to sessions that open and close behind it |
| Retention.NeverMoreThanTwo | vinga-server/src/vinga_server/telemetry.py:1398-1407 | in that run no more than two sessions are ever open at once |
| ContentSlots.HandoffExactly | vinga-server/src/vinga_server/telemetry.py:2333-2403 | a staged pair leaves its mark if and only if this emission's own fold wrote it on a span; after the settle no slot and no mark is left |
| ContentSlots.Telemetry.Settle | vinga-server/src/vinga_server/telemetry.py:2387-2395 | the answer is whether the mark was there, and slot and mark are gone |
| Staging.EnterAgrees | vinga-server/src/vinga_server/llm_input_export.py:150-188 | entering a round keeps the three maps in step: ordered lists hold exactly their staged rounds once, held bytes are their sum |
| Staging.RemoveAgrees | vinga-server/src/vinga_server/llm_input_export.py:378-389 | and so does removing one, from its own session and no other |
| LlmExport.LlmInputExport.Stage | vinga-server/src/vinga_server/llm_input_export.py:150-188 | where a request enters, the oldest of its session give way until both bounds hold, and no more than that; a repeat, one that cannot be measured or one over the ceiling fails at once; what is staged is what was asked |
| LlmExport.StagedInOrder | vinga-server/src/vinga_server/llm_input_export.py:173-188 | each session lists its rounds in the order they came, so what gives way had come before all of it that is left |
| LlmExport.LlmInputExport.TrimSession | vinga-server/src/vinga_server/llm_input_export.py:175-188 | the eviction loop ends with both bounds met, after the fewest evictions that meet them |
| LlmExport.LlmInputExport.Observe | vinga-server/src/vinga_server/llm_input_export.py:190-217 | a round takes the event's raw size or is dropped, within the ceiling |
| LlmExport.LlmInputExport.Finish | vinga-server/src/vinga_server/llm_input_export.py:219-268 | a round is exported exactly when its complete pair fits and its emission's fold wrote it, and what is on the span says what was asked and heard; else it failed |
| ExportReading.PairSays | vinga-server/src/vinga_server/llm_input_export.py:163-171 | each attribute read under its own name: the system text, the turns, the tools, the choice, and one message of the assistant's with the text heard and behind it the calls in order |
| LlmExport.LlmInputExport.StageTool | vinga-server/src/vinga_server/llm_input_export.py:270-342 | a tool pair is exported exactly when it fits what its round has left and its emission's fold wrote it, and what is on the span says the arguments and the result |
| LlmExport.ToolPairSays | vinga-server/src/vinga_server/llm_input_export.py:325-329 | the arguments as the model's text or as JSON that reads as them, and the result, each under its name |
| LlmExport.MoreLanded | vinga-server/src/vinga_server/llm_input_export.py:331-342 | what a round has used up is the bytes of its own pairs that landed since the session's last pair of another round |
| LlmExport.LlmInputExport.SessionClosed | vinga-server/src/vinga_server/llm_input_export.py:360-363 | every round the session had staged is said to have failed |
| LlmExport.LlmInputExport.Shutdown | vinga-server/src/vinga_server/llm_input_export.py:365-368 | nothing stays staged, and attempts equal exported plus failed, for generations and for tools |
| LlmExport.DroppedWasHopeless | vinga-server/src/vinga_server/llm_input_export.py:190-217 | a round dropped for its size could not have been finished, whatever came after |
| LlmExport.KeptExactly | vinga-server/src/vinga_server/llm_input_export.py:190-217 | a round that could be finished with this event in it is kept if and only if the event's text can be encoded |
| LlmExport.LoneSurrogateIsLost | vinga-server/src/vinga_server/llm_input_export.py:190-217 | a lone surrogate costs a round the final rendering would have admitted |
| Json.RenderGrows | vinga-server/src/vinga_server/llm_input_export.py:404-415 | an ASCII rendering is never shorter than the plain one |
| Json.EncodedIsWellFormed | vinga-server/src/vinga_server/llm_input_export.py:404-415 | what is rendered can be encoded, whatever the value holds |
| JsonReading.ReadsBack | vinga-server/src/vinga_server/llm_input_export.py:404-415 | whatever is rendered is read as that value, in either mode, with each pair of surrogates side by side as the one character it encodes |
| JsonReading.ReadsBackExactly | vinga-server/src/vinga_server/llm_input_export.py:404-415 | so it is read as the very same value if and only if no text in it holds such a pair |
| JsonReading.WrittenAsItIs | vinga-server/src/vinga_server/llm_input_export.py:404-415 | a text is written as it is if and only if none of its characters needs an escape and all can be encoded; one that cannot be leaves only ASCII |
| Json.RawIsALowerBound | vinga-server/src/vinga_server/llm_input_export.py:434-441 | raw text and call bytes never exceed the rendered output |
| Lines.JoinSplit | scripts/fold_changelog.py:452-469 | splitting into lines that keep their endings loses nothing |
| Lines.SplitConcat | scripts/fold_changelog.py:452-469 | complete text splits apart from what follows it but for a carriage return meeting a line feed |
| ChangelogParse.Parse | scripts/fold_changelog.py:452-469 | the parser's loop; printing what it returns gives back every text |
| ChangelogParse.OutlineConcat | scripts/fold_changelog.py:452-469 | complete text is read the same in front of other text as alone |
| ChangelogParse.WrittenReadsBack | scripts/fold_changelog.py:590 | sections written out and parsed again have the same dates, texts and class headings |
| Subsequence.KeepsExactly | scripts/fold_changelog.py:647-655 | the greedy one-pass test is exactly the subsequence relation |
| ChangelogAppend.FindPlace | scripts/fold_changelog.py:522-544 | the searches find the right place: after the class's last entry, before the first later class, or after everything |
| ChangelogAppend.OnePlace | scripts/fold_changelog.py:522-544 | there is one right place |
| ChangelogAppend.Append | scripts/fold_changelog.py:505-544 | a body with one class's entries put in at that place |
| ChangelogAppend.AppendGrows | scripts/fold_changelog.py:505-544 | an append only inserts, keeps every heading in order, adds none but its class's, and every entry is in |
| ChangelogAppend.CreateSection | scripts/fold_changelog.py:481-502 | a section written from nothing |
| ChangelogAppend.CreatedIsCanonical | scripts/fold_changelog.py:481-502 | its date, one heading for each of its classes in the order of the six, and every entry whole |
| ChangelogFold.Assembly.Fold | scripts/fold_changelog.py:561-589 | one date: into the first section of that date, or into a new one in front of the first older |
| ChangelogFold.FoldIsOnePass | scripts/fold_changelog.py:547-590 | folding date by date, each splice made in what the last left, equals one merge over the sections that stood |
| ChangelogFold.WeaveInsertsOnly | scripts/fold_changelog.py:547-590 | every line of every standing section is kept in order |
| ChangelogFold.DescendingStays | scripts/fold_changelog.py:566-583 | descending dates stay descending, and are the standing ones and the new ones |
| ChangelogFold.EntriesLand | scripts/fold_changelog.py:561-589 | every entry lands whole in a section of its own date |
| ChangelogChecks.Assemble | scripts/fold_changelog.py:547-590 | text to text, with the dates created and appended into |
| ChangelogChecks.NewlineExactly | scripts/fold_changelog.py:228-237 | what the fold makes up ends in a carriage return and a line feed if and only if some line of the changelog does, and else in a line feed |
| ChangelogChecks.FoldInsertsOnly | scripts/fold_changelog.py:547-590 | taking out what was put in gives the text back, line for line |
| ChangelogChecks.PostConditions | scripts/fold_changelog.py:605-644 | each reason is given exactly for its own finding, read from the two texts |
| ChangelogChecks.UntouchedExactly | scripts/fold_changelog.py:575-583 | outside the dates it says it touched the fold changes nothing but an undated section it had to give a blank line |
| ChangelogChecks.OutsideChangedExactly | scripts/fold_changelog.py:620-626 | the byte-identity check refuses the fold's own output if and only if a new date goes right behind an undated section that does not end in a blank line |
| ChangelogChecks.NeverMalformed | scripts/fold_changelog.py:628-643 | over distinct dates no created or appended section is found malformed |
| ChangelogNames.EntryTame | scripts/fold_changelog.py:471-478 | an entry read as one piece never passes for a heading of one of the six |
| ChangelogNames.AppendNames | scripts/fold_changelog.py:522-544 | an append leaves a section's class headings alone where it has the class, and else puts the class in front of the first later one, or last |
| ChangelogNames.AppendAllNames | scripts/fold_changelog.py:585-588 | and so on through all the classes of a date |
| ChangelogFiled.AppendFiles | scripts/fold_changelog.py:505-544 | read off the headings above each piece: all that stood keeps its class, and the entries come in their order under theirs, behind all of it that stood, and behind a heading of its own where there was none |
| ChangelogFiled.AppendSpaces | scripts/fold_changelog.py:505-544 | what is put in has a blank line between each two pieces and one where it meets what stood |
| ChangelogFiled.AppendAllFiles | scripts/fold_changelog.py:505-544 | and so through all the classes of a date |
| ChangelogFiled.CreatedFiles | scripts/fold_changelog.py:481-502 | a created section reads as its classes in the order of the six, each behind its heading with its entries in order, and as nothing else |
| ChangelogFiled.CreatedSpaces | scripts/fold_changelog.py:481-502 | with a blank line at either end and between each two pieces |
| ChangelogFiled.WeaveKeepsFiling | scripts/fold_changelog.py:547-590 | through the whole fold everything that stood stays in its section and under its class, in order |
| ChangelogFiled.EntriesFiled | scripts/fold_changelog.py:547-590 | and the entries of each date and class land together, in order, in the first section of that date and under that class |
| ChangelogFiled.EntryReads | scripts/fold_changelog.py:547-590 | from text to text: each entry stands where a reader of what is written is in a section of its date, under its class |
| ChangelogTwins.MalformedExactly | scripts/fold_changelog.py:628-643 | the fold finds a section of its own output malformed if and only if some section of the changelog, of a date that is folded or given a blank line, departs in the end from the last section of its date |
| ChangelogTwins.TwinsRefused | scripts/fold_changelog.py:628-641 | a changelog with two sections of one day, and one entry for it, which the fold refuses to write |
| ChangelogRefused.FoldSum | scripts/fold_changelog.py:547-590 | however pieces are weighed, the result weighs at least what stood and what was folded in, and exactly that where headings and blank lines the fold makes up weigh nothing |
| ChangelogRefused.EveryPiece | scripts/fold_changelog.py:547-590 | what holds of every line of the changelog, every entry and all the fold makes up holds of every piece of the result |
| ChangelogRefused.TwiceExactly | scripts/fold_changelog.py:614-618 | an entry is counted twice if and only if it is at two places that do not overlap |
| ChangelogRefused.OccursForEach | scripts/fold_changelog.py:614-618 | an entry occurs in the result at least as often as it stood beforehand in lines of the changelog and entries of the fold |
| ChangelogRefused.RepeatedExactly | scripts/fold_changelog.py:614-618 | the once-only check refuses exactly where an entry is at two such places of the result, and so wherever one stood more than once beforehand |
| ChangelogRefused.OneLineExactly | scripts/fold_changelog.py:614-618 | one line occurs in the result exactly as often as it stood beforehand, unless it is part of what the fold makes up |
| ChangelogRefused.RepeatedBeforehand | scripts/fold_changelog.py:614-618 | what can be told before the fold: the check refuses nowhere but where an entry's first line stood more than once, and of entries of one line each if and only if one of them did |
| ChangelogHashes.UnreleasedRefused | scripts/fold_changelog.py:575-583 | a changelog of one undated section, and its first dated one, which the fold refuses to write |
| ChangelogHashes.HashesPassTheCheck | scripts/fold_changelog.py:311-337 | a fragment that passes the heading check and declares an entry the fold cannot place |
| ChangelogHashes.HashesRefused | scripts/fold_changelog.py:620-626 | whatever the changelog, an entry with an undated section heading among its lines makes the fold refuse its own output |
| ChangelogHashes.HashesRefusedEverywhere | scripts/fold_changelog.py:620-626 | so that fragment is refused in front of every changelog |
| ChangelogHashes.PlacedOrRefused | scripts/fold_changelog.py:311-337 | whatever checked fragments a folding is made of and whatever the changelog: either every entry is one the fold can place, or it refuses its own output |
| ChangelogChecks.EveryEntryLands | scripts/fold_changelog.py:614-618 | every entry occurs in the result, so the once-only check never means that one was lost |
| ChangelogChecks.DatesStayDescending | scripts/fold_changelog.py:561-583 | from text to text, newest first stays newest first |
| ChangelogChecks.RefusedOnlyFor | scripts/fold_changelog.py:605-644 | so only repetition, a conflict marker or that one undated section can refuse a fold over distinct dates |
| Fragments.EntriesOf | scripts/fold_changelog.py:255-277 | a fragment's entries, one for each class heading, with the lines up to the next |
| Fragments.CutExactly | scripts/fold_changelog.py:255-277 | the entry of each class heading is exactly the lines behind it up to the next one |
| Fragments.Trimming | scripts/fold_changelog.py:298-308 | blank lines at either end go, and a line ending comes where there is no line feed |
| Fragments.TrimKeeps | scripts/fold_changelog.py:298-308 | what goes is every blank line in front of the first that says something and behind the last, and nothing else of an entry's bytes changes |
| Fragments.EntryExactly | scripts/fold_changelog.py:255-308 | an entry is one the fold can place if and only if it says something and no line it came from is a heading |
| Fragments.CheckedEntriesExactly | scripts/fold_changelog.py:311-337 | after the date-heading check that fails only for empty entries and for a line of two hashes followed by nothing but space |
| Fragments.UnplacedHasHashes | scripts/fold_changelog.py:311-337 | and a declared entry that says something and cannot be placed has such a line among those it is folded as |
| Headings.WrittenDate | scripts/fold_changelog.py:433-446 | a dated heading as the fold writes it reads back as that date |
| Headings.CheckMissesExactly | scripts/fold_changelog.py:113-120 | the check misses a section heading if and only if only space follows its two hashes |
| Headings.SpaceIsNoDate | scripts/fold_changelog.py:113-120 | and such a heading gives no date |
| FoldMutate.Tree.Stage | scripts/fold_changelog.py:708-737 | the staged file is whole and has the changelog's mode, or staging failed |
| FoldMutate.Tree.Mutate | scripts/fold_changelog.py:749-785 | with any step failing, the list of reasons is empty exactly when none did, and then the tree is new; otherwise it starts with what the first failure was of, the changelog is the old one and so is every fragment, content and mode, unless the list says one could not be put back, and no staged file stays that could be removed |
| FoldMutate.Tree.Restore | scripts/fold_changelog.py:788-814 | fragments already taken are put back as they were, or the half-folded tree is reported |
| WireLatency.Utterances | scripts/wire_latency.py:391-433 | one pass reports exactly the maximal runs of linked speaking samples |
| WireLatency.RunsAreMaximal | scripts/wire_latency.py:391-433 | those runs are maximal, in order, apart, and cover every speaking sample |
| WireLatency.OneListOfRuns | scripts/wire_latency.py:391-433 | and no other list of runs is |
| WireLatency.ReportedIsTheRunExactly | scripts/wire_latency.py:425 | a run is reported by its own first and last time if and only if the last is not zero or is the first |
| WireLatency.DecidedAtZeroIsLost | scripts/wire_latency.py:425 | two samples whose utterance is reported as decided ten milliseconds too early |
| WireLatency.SpeechEnd | scripts/wire_latency.py:436-444 | the end of the last active frame within two seconds before the decision, or nothing when there is none |
| WireLatency.ReplyOnset | scripts/wire_latency.py:447-469 | the first active frame of the window if ten quiet frames, or the recording's start, come before it; else the reason |
| WireLatency.OnsetAfter | scripts/wire_latency.py:447-469 | an onset is no earlier than the speech end, before the next utterance, with nothing sounding between |
| WireLatency.FirstBetween | scripts/wire_latency.py:472-476 | the earliest time inside a window |
| WireLatency.Turn | scripts/wire_latency.py:509-548 | each reason is given exactly where it holds of the recording and the track, and a latency exactly where none does; end, onset and latency are those of the recording |
| WireLatency.OneReport | scripts/wire_latency.py:509-548 | there is one right report |
| WireLatency.MeasuredRight | scripts/wire_latency.py:509-548 | a measured latency is never negative and a whole number of frames, ends before the next utterance, and has neither sound nor filler inside it |
| WireLatency.TurnsOf | scripts/wire_latency.py:479-506 | every utterance has its right report, bounded by the first that begins after it or by the recording's end |
| WireLatency.RepliesInOrder | scripts/wire_latency.py:479-506 | a measured reply begins before any later utterance does |
| ClipFiling.Retrying | vinga-server/src/vinga_server/capture_upload.py:1099-1125 | the loop answers as the attempts do, and waits after every attempt but the last at which no shutdown was asked for, twice as long each time |
| ClipFiling.TriedExactly | vinga-server/src/vinga_server/capture_upload.py:1099-1125 | at most retries plus one attempts; exhausted if and only if every one met a failure worth retrying; what it brings, or why it failed, is what the last one met |
| ClipFiling.FileClip | vinga-server/src/vinga_server/capture_upload.py:1051-1071 | a clip whose bytes cannot be had is not sent |
| ClipFiling.Uploader.FileTurn | vinga-server/src/vinga_server/capture_upload.py:1032-1048 | one turn's clips, and what landed of them in one reference |
| ClipFiling.Uploader.FileTurns | vinga-server/src/vinga_server/capture_upload.py:998-1049 | every turn in order, with the counts kept in place |
| ClipFiling.StagedDistinct | vinga-server/src/vinga_server/capture_upload.py:1296-1330 | staging gives the clips of a turn different references, the heard clip its own and the reply clip its own |
| ClipFiling.EveryClipCounted | vinga-server/src/vinga_server/capture_upload.py:998-1049 | attached plus unfiled plus failed plus skipped is the number of staged clips |
| ClipFiling.SharedReferenceLosesCount | vinga-server/src/vinga_server/capture_upload.py:1036-1044 | with one reference for two clips the counts come up short |
| ClipFiling.AttachedIsReferenced | vinga-server/src/vinga_server/capture_upload.py:1041-1048 | what counts as attached stands in a reference that was accepted |
| ClipFiling.ReferencesLanded | vinga-server/src/vinga_server/capture_upload.py:1036-1044 | every token of a reference is a clip of its turn that landed |
| ClipFiling.SentInOrder | vinga-server/src/vinga_server/capture_upload.py:998-1049 | clips are sent in order and at most once, and nothing after one that used up every retry |
| ClipFiling.Explained | vinga-server/src/vinga_server/capture_upload.py:631-650 | a clip is skipped only once the backend is gone, and a reason is there exactly when something failed |
| ClipFates.FilingExactly | vinga-server/src/vinga_server/capture_upload.py:1051-1125 | a clip lands with the token of its first attempt not worth retrying, or fails for what its last attempt met or for its lost bytes |
| ClipFates.FatesCounted | vinga-server/src/vinga_server/capture_upload.py:998-1049 | each count is the number of clips of that fate, said of the clips alone: skipped behind one that used up every retry, unfiled without a trace, else landed or failed, and attached or failed as the turn's reference is answered |
| ClipFates.ReferencesExactly | vinga-server/src/vinga_server/capture_upload.py:1036-1048 | one reference for each turn of which a clip landed, in order, with exactly the tokens of those clips |
| ClipFates.ReasonIsTheFirst | vinga-server/src/vinga_server/capture_upload.py:631-650 | the reason is that of the first clip to fail, or that a reference was not accepted, and once given it stays |

## Left out

- Lifecycle.NoEngineClosedUnderAConversation: that each disposal is told is sufficient, and `EnginesOpenExactly` is the condition both ways; assumes, with the configuration code, that a new world's engines are new or carried over from the current one.
- Lifecycle.NothingLingers: a conversation binds one world, once, as a session does.
- MarkRead.EqualMarksExactly: applies do not overlap; the exclusion lives in a file that is not part of this model.
- Naming.RowsFiledUnderCurrentNames: a rename's commit and its publication are one step, as the lock they share makes them; agents are given an identity of their own, which the source does not spell out.
- Worlds.Generations.Dispose: the awaits while engines close, their timeouts and their suppressed exceptions; an engine's close is one step of `Lifecycle`.
- Capture.SessionCapture.Microphone: samples rather than bytes, so an odd byte count is not modelled; times are real numbers, not floating point.
- Capture.SessionCapture.Reply: a clip is a value in the list of turns, not a file object shared with it; write failures and the disabling they cause are best effort in the source.
- Capture.SessionCapture.Close: the manifest's text, pruning, staging for upload and everything else on the filesystem.
- TurnRace.AllEndedBeforeShutdown: keys and spans are each used once, and events are folded only while the exporter accepts them; the transcript content put on a settled root.
- TraceFold.Telemetry.Fold: what attributes a span carries, and the retained identity, providers and prompts; a span event is the time it was noted at; a stage's length comes as whole nanoseconds.
- TraceFold.Telemetry.TakeReplyFinished: which of the held roots overflow evicts is `TurnHistory`; here the root is handed over.
- Retention.OpenSessionLosesItsContext: a session is a number, and its context is its own.
- Retention.Retained.Remember: the turns pinned under a session, whose rule is the same one level down, and the two buffers of events that wait for their session.
- ContentSlots.HandoffExactly: the two maps of generations and tool calls are one map under keyed names; the pair handed over is not empty.
- LlmExport.LlmInputExport.Stage: how a turn, a call or a tool definition becomes a JSON value; values come as given, with object members sorted and numbers as their text.
- Staging.RemoveAgrees: a list gives up every occurrence of a round where the source takes the first, which is the same for lists without repeats, and these have none.
- Json.RawIsALowerBound: floating-point numbers and the fallback to a value's string form are part of the given text.
- JsonReading.ReadsBack: text without space between its tokens, and literals spelled with letters, digits, signs and points.
- ChangelogFiled.EntryReads: of an entry that is nothing but space, which the fragment check refuses, only that it is there.
- ChangelogChecks.NeverMalformed: distinct dates among the standing sections; `ChangelogTwins.MalformedExactly` is the case without them.
- ChangelogChecks.OutsideChangedExactly: a changelog whose last line has an ending, dates that are dates, and entries as `Fragments` makes them.
- Headings.WrittenDate: a digit is an ASCII digit; the pattern accepts any decimal digit.
- ChangelogFold.Assembly.Fold: sections are values in one list, not objects of their own; nothing else refers to them in the source.
- ChangelogRefused.RepeatedExactly: of entries of more than one line the exact condition is read off the result, since an entry may be found across lines that only the fold brings together; `RepeatedBeforehand` is what can be told before.
- ChangelogRefused.RepeatedBeforehand: no line of the changelog and no entry ends in a bare carriage return, and no first line of an entry is part of a heading or blank line the fold makes up.
- TurnRace.WaitEnds: that the threads which own roots are scheduled.
- ChangelogHashes.HashesRefused: dates are those of the fold, and entries end with a line ending, as every entry a fragment declares does.
- Fragments.EntriesOf: file names, the other checks of a fragment, and the order of fragments, which comes from git.
- FoldMutate.Tree.Mutate: other processes at work in the same directory; a staged file that could not be removed may stay behind.
- WireLatency.ReplyOnset: levels and thresholds are real numbers as given; the envelope and the noise floor are signal processing. The window starts inside the recording or right behind it, which equally long channels give.
- WireLatency.Turn: the two channels are equally long, as the envelopes of one recording are.
- WireLatency.TurnsOf: samples come in the order of their times, as the source sorts them first.
- ClipFiling.Uploader.FileTurns: what a request is made of, how a failure is classified, and the pair of files that goes before the clips.
- ClipFates.FatesCounted: the clips of a turn have different references, which `ClipFiling.StagedDistinct` gives.
- Admission.SessionRegistry.Admit: draining, its timeouts and the tasks that close sessions.
- Application wiring, the command line, authentication, the Langfuse and OpenTelemetry SDKs, sockets and threads as such.

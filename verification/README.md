# Verified models of prosper's frontends

A Dafny model of the stateful parts of prosper's frontends, one module per component, with the
properties their code and comments promise proved for all inputs and all interleavings. Run
`dafny verify dfyconfig.toml`.

How the pieces fit together:

- Code that changes fields in place is a class (`LibraryMedia`, `LibraryUi`, `Budget`,
  `FfmpegStreamDecoder`, `SaveDataDialogState`, `AudioSink`, `Directory`), and loops that write buffers or walk
  bytes are methods. Each method is proved to take the step a function on plain values names, and the
  theorems are about those functions, over single steps, calls and whole runs.
- **Library media runtime** (`LaunchPolicy`, `DescriptorBudget`, `MediaState`, `MediaStorage`, `MediaLoads`,
  `MediaDelivery`, `MediaContinuity`, `MediaRuntime`, `LibraryState`, `LibraryView`): the UI thread and the
  worker exchange loads through two single-slot mailboxes; backgrounds live in a three-entry cache, a retire list and one
  upload; covers share their descriptor pool. The source serialises every access by a mutex or by thread,
  so each step is atomic. Proved: nothing is lost, nothing stale is installed, nothing in flight is
  destroyed, the pool never runs short, interruptions are continuous to the eye, music stays with its art,
  and a title on which the selection rests is loaded and shown.
- **AJM stream decoder** (`AjmDecoder`, `AjmStream`, `OpusFraming`, `AjmPlayback`): the codec is an oracle from
  the packets it was sent to the frames it gives, errors and "try again" included. Proved: samples are conserved over
  any sequence of calls, drains are whole frames, the carry is bounded, and a guest that re-submits what was
  not consumed has every packet decoded exactly once, and with a codec that behaves the whole stream.
- **Dialogs** (`SaveDialog`, `SaveDialogObject`, `ImeText`, `Utf8Grammar`): the ticket protocol between the guest's
  polling thread and the main thread's pump, and the text-entry codec pair against the byte ranges of RFC 3629.
- **Printers, parsers and scanners** (`WindowsCommandLine`, `AppConfig`, `RiffAt9`, `RiffLayout`, `JsonScanner`):
  each against an independent grammar or reader.
- **Arithmetic and protocol cores** (`AudioPacing`, `TlsLayout`, `FrameGrab`).

What the proofs found:

- Audio cushions above the default are not paced across restarts: with two to sixteen grains, a resume or a
  re-open before each call lets any number of calls return at one instant (`RestartsUnpace`). Without
  restarts two to five grains keep the burst bound, once the clock is past the instant whose deadline would
  be zero. `BoundDecided` gives the exact condition for both cases. The saturation from six grains on, which
  the comment on `cushion_grains` describes, is confirmed by `LongCushionIsUnpaced`.
- "Close or a newer Open invalidates every older generation" holds except at exact multiples of 2^64 - 1
  opens and closes (`SameNumber`, `WrappedTicketCrosses`).
- The comment on `config_trim` speaks of spaces and tabs at both ends; the code also cuts carriage returns,
  but only at the end. `parse_app_config` is described as ignoring unknown keys; the code keeps their lines.
  The model follows the code.
- The framing enumeration of the AJM backend describes an accumulator that emits one packet per call; the
  code keeps no fragment and retires every complete packet there is room for. The model follows the code.

## Model

| member | source | states |
|---|---|---|
| `DescriptorBudget.PoolSets` | prosper/frontends/prosper-app/library_descriptor_budget.hpp:57-66 | the pool size lies between the floor and the ceiling, and only the ceiling can make it smaller than one set per title plus the background allowance plus the font atlas |
| `DescriptorBudget.PoolIsLeast` | prosper/frontends/prosper-app/library_descriptor_budget.hpp:57-71 | below the ceiling it is the least size of at least 32 that holds every title, the eight backgrounds and the font atlas, and the budget is all of it but the atlas |
| `DescriptorBudget.PoolHasCeiling` | prosper/frontends/prosper-app/library_descriptor_budget.hpp:57-66 | any larger library gets exactly the ceiling |
| `DescriptorBudget.Budget.AcquireTextureSet` | prosper/frontends/prosper-app/library_descriptor_budget.hpp:114-120 | a set is had exactly when there was room and the allocator gave one; the counter grows exactly then |
| `DescriptorBudget.Budget.Acquire` | prosper/frontends/prosper-app/library_descriptor_budget.hpp:86-90 | one slot taken exactly when there was room |
| `DescriptorBudget.Budget.Reset` | prosper/frontends/prosper-app/library_descriptor_budget.hpp:81-84 | new capacity, nothing taken |
| `DescriptorBudget.Budget.Release` | prosper/frontends/prosper-app/library_descriptor_budget.hpp:94-96 | one slot back, clamped at zero |
| `LaunchPolicy.FadeStateAt` | prosper/frontends/prosper-app/launcher_media.hpp:407-447 | never both alphas non-zero, both within [0, 1], done only when the new side is fully up |
| `LaunchPolicy.FadeIsGradual` | prosper/frontends/prosper-app/launcher_media.hpp:407-447 | between any two instants the old side only falls and the new side only rises, neither faster than its own slope |
| `LaunchPolicy.ArrivalDoesNotJump` | prosper/frontends/prosper-app/launcher_media.hpp:401-447 | an asset's arrival changes neither alpha at that instant, however late it is |
| `LaunchPolicy.LruTouchInPlace` | prosper/frontends/prosper-app/launcher_media.hpp:457-468 | the in-place scan, erasure, push and front erasures compute the specification's order and evictions |
| `LaunchPolicy.TouchPartitions` | prosper/frontends/prosper-app/launcher_media.hpp:449-468 | no duplicates; every old entry and the key is either kept or reported evicted, never both; with any capacity the key ends up last |
| `LaunchPolicy.TouchingResidentEvictsNothing` | prosper/frontends/prosper-app/launcher_media.hpp:457-468 | touching a resident key within capacity evicts nothing |
| `LaunchPolicy.TouchingNewcomerEvictsOldest` | prosper/frontends/prosper-app/launcher_media.hpp:457-468 | a new key evicts exactly the oldest entry, and only at capacity |
| `MediaStorage.SixSetsAtMost` | prosper/frontends/prosper-app/library_descriptor_budget.hpp:36-46 | cache and retire list together hold at most six sets, within the allowance of eight, whatever else draws on the pool |
| `MediaStorage.CollectKeepsInv` | prosper/frontends/prosper-app/library_media.cpp:758-767 | collecting destroys what is due and nothing else of the retire list, returns one set for each, and leaves every image in exactly one place |
| `MediaStorage.InsertFresh` | prosper/frontends/prosper-app/library_media.cpp:734-755 | publishing an uncached title retires at most one background: the oldest, and only when three were resident |
| `MediaStorage.PublishKeepsInv` | prosper/frontends/prosper-app/library_media.cpp:692-744 | publishing an upload, or giving it up for want of a view or a set, keeps the set count exact and every image in one place |
| `MediaStorage.UpdateKeepsStorage` | prosper/frontends/prosper-app/library_media.cpp:869-917 | a whole update keeps the storage invariant and destroys nothing that was cached |
| `MediaStorage.ReleaseEmpties` | prosper/frontends/prosper-app/library_media.cpp:214-227 | after a release the layer holds nothing: every image it had is destroyed and every set returned |
| `MediaStorage.StepKeepsStorage` | prosper/frontends/prosper-app/library_media.cpp:734-790 | the storage invariant (recency order equals cache keys, at most three; every image created is destroyed or in exactly one place; exact counter) holds after every step of every interleaving |
| `MediaStorage.RetiredForThreeFrames` | prosper/frontends/prosper-app/library_media.cpp:758-767 | a retired background is destroyed in the third frame from its retirement and not before |
| `MediaStorage.UpdateStaysWithin` | prosper/frontends/prosper-app/library_media.cpp:869-917 | no frame takes a set beyond the budget's capacity |
| `MediaLoads.StepKeepsLoads` | prosper/frontends/prosper-app/library_media.cpp:141-580 | on every step of UI thread and worker: generations are ordered along the mailboxes, anything of the current generation is for the shown title, a waiting transition has a carrier, the tracks belong to the art |
| `MediaLoads.StartLoadKeepsLoads` | prosper/frontends/prosper-app/library_media.cpp:398-528 | starting a load from any state, reversals, resumed tracks and cached art included, loses no load and leaves no track under the wrong art |
| `MediaLoads.ApplyResultKeepsLoads` | prosper/frontends/prosper-app/library_media.cpp:546-569 | applying a result keeps the load and music invariant, whether it ends the wait, becomes the upload or is parked; a stale one changes nothing but its count |
| `MediaLoads.ApplyingAdvances` | prosper/frontends/prosper-app/library_media.cpp:546-569 | a current result brings the load to its upload, or to the parked stage behind another upload, or to its end |
| `MediaLoads.ClaimResultKeepsLoads` | prosper/frontends/prosper-app/library_media.cpp:530-544 | the parked result is retried before the new one and neither is lost |
| `MediaLoads.HeardBelongsToArt` | prosper/frontends/prosper-app/library_media.cpp:806-810 | at any instant the track with a positive gain is the one of the title whose art has the opacity, unless the art was released |
| `MediaLoads.QuietStepAdvances` | prosper/frontends/prosper-app/library_media.cpp:692-732 | while the choice rests no step sends a load back, and the answer its stage waits for moves it on |
| `MediaLoads.AnsweredLoadEnds` | prosper/frontends/prosper-app/library_media.cpp:251-284 | over any interleaving, answers count down a budget of at most five; when they are given the shown title is ready |
| `MediaLoads.AnswerIsPossible` | prosper/frontends/prosper-app/library_media.cpp:251-284 | while a load is waited for and no changed focus is pending, a step that gives the awaited answer is enabled |
| `MediaLoads.LoadCanEnd` | prosper/frontends/prosper-app/library_media.cpp:251-284 | so from any such state at most five steps make the shown title ready: no interleaving leads into a deadlock |
| `MediaLoads.ReadyTransitionSettles` | prosper/frontends/prosper-app/library_media.cpp:884-898 | the first frame past the fade-in ends the transition on the shown title |
| `MediaLoads.InterruptionKeepsTheSound` | prosper/frontends/prosper-app/library_media.cpp:398-494 | the track heard when a load starts is still held after it, as the departing or as the current one |
| `MediaLoads.ReversalKeepsTheSound` | prosper/frontends/prosper-app/library_media.cpp:432-436 | on a reversal it is the current one |
| `MediaLoads.HeldTrackResumes` | prosper/frontends/prosper-app/library_media.cpp:468-494 | a track still held for the chosen title becomes current and is not decoded again |
| `MediaLoads.FinishedTrackIsKept` | prosper/frontends/prosper-app/library_media.cpp:887-898 | the outgoing track of a finished transition is kept |
| `MediaLoads.SettledReturnResumes` | prosper/frontends/prosper-app/library_media.cpp:487-494 | going back to that title makes it current |
| `MediaLoads.MusicSwitches` | prosper/frontends/prosper-app/library_media.cpp:141-174 | the music switch is obeyed both ways, on only if there is a device |
| `MediaDelivery.RestedFocusIsServed` | prosper/frontends/prosper-app/library_media.cpp:869-880 | the frame in which a changed focus has rested 180 ms shows that title under the next generation, with exactly what it lacks requested |
| `MediaDelivery.UnrestedFocusWaits` | prosper/frontends/prosper-app/library_media.cpp:877-880 | before that no frame starts a load or forgets the focus |
| `MediaDelivery.SettledFocusStartsNothing` | prosper/frontends/prosper-app/library_media.cpp:877-880 | nor does any frame while no focus is pending or the focus is on what is shown |
| `MediaDelivery.ChosenTitleIsServed` | prosper/frontends/prosper-app/library_media.cpp:391-396 | choosing a title and letting it rest leads to its load |
| `MediaDelivery.ReleasedArtReturns` | prosper/frontends/prosper-app/library_media.cpp:214-248 | a release outdates all that is under way, and the same title chosen again is requested again with its image |
| `MediaDelivery.StepDelivers` | prosper/frontends/prosper-app/library_media.cpp:251-284 | on every interleaving, while workers find what they look for and the driver does its part: art or music that is missing is on its way, and what is ready is resident |
| `MediaDelivery.EveryGoodRunDelivers` | prosper/frontends/prosper-app/library_media.cpp:251-284 | so from start-up, over any focus changes, toggles and releases: whenever nothing is under way the shown title's art is resident and ready, and its track is installed if music is on |
| `MediaDelivery.CanBeDelivered` | prosper/frontends/prosper-app/library_media.cpp:251-284 | from any such state at most five such steps lead there |
| `MediaDelivery.DeliveredIsShown` | prosper/frontends/prosper-app/library_media.cpp:919-938 | once there and past both fades the picture is that title's image at full opacity |
| `MediaDelivery.RestedFocusIsShown` | prosper/frontends/prosper-app/library_media.cpp:869-938 | the whole way: from a rested focus at most six steps, and past the fades its art is on screen in full and its track is the one playing |
| `MediaContinuity.InterruptionIsContinuous` | prosper/frontends/prosper-app/library_media.cpp:405-501 | for any transition and instant past 200 ms (450 ms for a reversal), starting a load leaves the same image on screen, less than 1/200 brighter, or when reversing less than 1/250 darker; nothing shown stays nothing |
| `MediaContinuity.CrossFadeContinues` | prosper/frontends/prosper-app/library_media.cpp:468-501 | the back-dated fade-out reproduces the visible opacity to within one millisecond's step and promotes what was on screen |
| `MediaContinuity.ReversalContinues` | prosper/frontends/prosper-app/library_media.cpp:430-466 | the back-dated fade-in reproduces the fading-out side's opacity to within one step |
| `MediaContinuity.FrameChangesOnlyByPublishing` | prosper/frontends/prosper-app/library_media.cpp:869-938 | besides that bound a frame changes the picture only through the upload it publishes: showing its title where nothing was, or evicting what was shown |
| `MediaContinuity.PictureOverTime` | prosper/frontends/prosper-app/library_media.cpp:919-938 | a running transition shows the old art falling over 200 ms, then nothing until the new one is there, then the new one rising over 250 ms |
| `MediaContinuity.SettledPicture` | prosper/frontends/prosper-app/library_media.cpp:919-938 | without a transition the shown title's resident art is up in full |
| `MediaContinuity.ReturnOnlyRises` | prosper/frontends/prosper-app/library_media.cpp:430-466 | after a return to a title still fading out its art only rises, and is up in full within 250 ms |
| `MediaRuntime.LibraryMedia.Update` | prosper/frontends/prosper-app/library_media.cpp:869-917 | the new state is the specified one: collect, serve focus, poll, claim, finish, in that order |
| `MediaRuntime.LibraryMedia.StartLoad` | prosper/frontends/prosper-app/library_media.cpp:398-528 | generation bumped, then reversal or cross-fade exactly as specified |
| `MediaRuntime.LibraryMedia.Reverse` | prosper/frontends/prosper-app/library_media.cpp:430-466 | focus back on the visible outgoing title: its track resumed, transition back-dated into its fade-in, recency renewed, music requested only if it is missing |
| `MediaRuntime.LibraryMedia.TakeBackTrack` | prosper/frontends/prosper-app/library_media.cpp:432-436 | the departing track becomes current if it is that title's and music is on; nothing departs any more |
| `MediaRuntime.LibraryMedia.BackdateFadeIn` | prosper/frontends/prosper-app/library_media.cpp:437-450 | the transition is the one that would have the present opacity in its fade-in |
| `MediaRuntime.LibraryMedia.BackdateFadeOut` | prosper/frontends/prosper-app/library_media.cpp:468-501 | the transition is the one that would have the present opacity in its fade-out |
| `MediaRuntime.LibraryMedia.CrossFade` | prosper/frontends/prosper-app/library_media.cpp:468-528 | what is visible becomes outgoing, its audible track departs, a held track is resumed, cached art is ready at once, and only what is missing is requested |
| `MediaRuntime.LibraryMedia.HandOverTracks` | prosper/frontends/prosper-app/library_media.cpp:468-494 | the departing track, and the resumed one, as specified |
| `MediaRuntime.LibraryMedia.ServeFocus` | prosper/frontends/prosper-app/library_media.cpp:875-880 | a rested focus starts one load, and only for another title |
| `MediaRuntime.LibraryMedia.FinishTransition` | prosper/frontends/prosper-app/library_media.cpp:887-898 | a finished transition forgets the outgoing art and keeps its track for a return |
| `MediaRuntime.LibraryMedia.SetMusicEnabled` | prosper/frontends/prosper-app/library_media.cpp:141-174 | turning off drops all tracks; turning on opens the device and requests the shown title again |
| `MediaRuntime.LibraryMedia.SetFocus` | prosper/frontends/prosper-app/library_media.cpp:391-396 | records a changed focus and nothing else |
| `MediaRuntime.LibraryMedia.WorkerTake` | prosper/frontends/prosper-app/library_media.cpp:251-266 | moves the request out of its mailbox |
| `MediaRuntime.LibraryMedia.WorkerPost` | prosper/frontends/prosper-app/library_media.cpp:266-284 | puts the answer, with the request's generation and root, into the result mailbox |
| `MediaRuntime.LibraryMedia.ClaimResult` | prosper/frontends/prosper-app/library_media.cpp:530-544 | parked result first, then the mailbox |
| `MediaRuntime.LibraryMedia.ApplyResult` | prosper/frontends/prosper-app/library_media.cpp:546-569 | stale results counted, busy uploads parked with their image, otherwise uploaded or marked ready |
| `MediaRuntime.LibraryMedia.InstallTrack` | prosper/frontends/prosper-app/library_media.cpp:794-804 | installs the samples unless music is off, missing, or the title's track is already playing |
| `MediaRuntime.LibraryMedia.MarkIncomingReady` | prosper/frontends/prosper-app/library_media.cpp:576-580 | stamps the arrival once |
| `MediaRuntime.LibraryMedia.StartUpload` | prosper/frontends/prosper-app/library_media.cpp:584-690 | busy while an upload is in flight; otherwise one new image, or failure |
| `MediaRuntime.LibraryMedia.PublishUpload` | prosper/frontends/prosper-app/library_media.cpp:692-724 | view and set had: cached; otherwise destroyed |
| `MediaRuntime.LibraryMedia.PollUpload` | prosper/frontends/prosper-app/library_media.cpp:692-732 | a signalled upload is published or destroyed and readies the shown title |
| `MediaRuntime.LibraryMedia.InsertBackground` | prosper/frontends/prosper-app/library_media.cpp:734-744 | replaces, caches and renews the recency order |
| `MediaRuntime.LibraryMedia.RetireEvicted` | prosper/frontends/prosper-app/library_media.cpp:748-755 | evicted titles leave the cache for the retire list stamped with the frame |
| `MediaRuntime.LibraryMedia.CollectRetired` | prosper/frontends/prosper-app/library_media.cpp:758-767 | the erase-while-scanning loop destroys exactly the expired images and returns one set for each |
| `MediaRuntime.LibraryMedia.DestroyAllBackgrounds` | prosper/frontends/prosper-app/library_media.cpp:786-790 | every cached image destroyed and its set returned |
| `MediaRuntime.LibraryMedia.DestroyBackground` | prosper/frontends/prosper-app/library_media.cpp:769-784 | one image destroyed, its set returned if it had one |
| `MediaRuntime.LibraryMedia.ReleaseBackgrounds` | prosper/frontends/prosper-app/library_media.cpp:214-247 | everything destroyed, focus forgotten, in-flight loads outdated by a new generation |
| `MediaRuntime.LibraryMedia.BackdropNow` | prosper/frontends/prosper-app/library_media.cpp:919-938 | the side that is visible, at its opacity, if it is resident |
| `LibraryState.EveryReachableStateIsSound` | prosper/frontends/prosper-app/library_ui.cpp:617-871 | from start-up, over every run of frames, rescans, swapchain rebuilds and worker steps: exact descriptor accounting, at most six background sets, no submitted frame samples a destroyed image, no load lost, music under its own art |
| `LibraryState.NoUseAfterDestroyInsideFrame` | prosper/frontends/prosper-app/library_ui.cpp:648-862 | also between the phases of a frame, before the previous fence was waited for |
| `LibraryState.RenderFrameKeepsInv` | prosper/frontends/prosper-app/library_ui.cpp:617-871 | update, draw, fence wait and submit in that order keep the invariant |
| `LibraryState.SetGamesKeepsInv` | prosper/frontends/prosper-app/library_ui.cpp:331-390 | destroying the covers, regrowing the pool and listing new games keep it |
| `LibraryState.CoverHasRoom` | prosper/frontends/prosper-app/library_ui.cpp:527-536 | in a pool sized for the library there is room for every cover still to be tried, whatever the backgrounds hold |
| `LibraryState.FrameNeverRefuses` | prosper/frontends/prosper-app/library_ui.cpp:404-557 | a frame gives every cover it tries its set unless the cover's own decoding or upload failed, and never reports the pool full |
| `LibraryState.UncappedLibraryNeverRunsOut` | prosper/frontends/prosper-app/library_ui.cpp:331-367 | uncapped, with libraries below the ceiling and pool grows that succeed, the exhaustion notice is never given on any run |
| `LibraryState.RescanKeepsSelection` | prosper/frontends/prosper-app/library_ui.cpp:369-390 | the selection stays on the first game with the selected title's root if there is one and the root is not empty, and is 0 otherwise; the list is the new one with no cover tried |
| `LibraryState.RescanGrowsPool` | prosper/frontends/prosper-app/library_ui.cpp:331-367 | a successful grow makes room for every title as far as ceiling and cap allow, takes the notice back and leaves the view up; a failed one changes neither pool nor notice |
| `LibraryState.FrameFollowsUser` | prosper/frontends/prosper-app/library_ui.cpp:617-871 | a frame focuses the selected title; then a choice made in the grid and the music switch take effect |
| `LibraryState.SelectionIsTaken` | prosper/frontends/prosper-app/library_ui.cpp:617-871 | the frame that finds another title selected starts its rest |
| `LibraryState.RestingSelectionIsServed` | prosper/frontends/prosper-app/library_ui.cpp:617-871 | a selection left alone: whatever frames are drawn within its 180 ms start nothing and keep its rest, and the first frame after them shows that title under the next generation with exactly what it lacks requested |
| `LibraryState.ViewStaysUp` | prosper/frontends/prosper-app/library_ui.cpp:803-862 | the view goes down exactly when acquiring or submitting failed or a stale image could not be drained; only a submitted frame samples images |
| `LibraryState.RefusedCover` | prosper/frontends/prosper-app/library_ui.cpp:527-557 | a cover is tried once; on a full pool it goes without art and the notice is given, otherwise no notice is |
| `LibraryState.ProvisionedIsSound` | prosper/frontends/prosper-app/library_descriptor_budget.hpp:36-46 | in a provisioned library the background layer has the room that `RestedFocusIsShown` asks for |
| `LibraryState.PoolIsNeverOverdrawn` | prosper/frontends/prosper-app/library_descriptor_budget.hpp:76-120 | on every run, capped or not and whatever fails, the sets out and the font atlas fit the pool, which never shrinks nor passes its cap |
| `LibraryView.LibraryUi.RenderFrame` | prosper/frontends/prosper-app/library_ui.cpp:617-871 | the new state is the specified frame |
| `LibraryView.LibraryUi.SetGames` | prosper/frontends/prosper-app/library_ui.cpp:369-390 | covers destroyed, pool grown if needed, selection kept by root |
| `LibraryView.LibraryUi.EnsureCapacity` | prosper/frontends/prosper-app/library_ui.cpp:331-367 | grows only upwards, below the cap, and only if the new pool could be made; everything holding a set is released first |
| `LibraryView.LibraryUi.UpdateMedia` | prosper/frontends/prosper-app/library_ui.cpp:648-650 | focus and media update come before anything is drawn |
| `LibraryView.LibraryUi.DrawLibrary` | prosper/frontends/prosper-app/library_ui.cpp:652-798 | covers tried in order, then the music toggle |
| `LibraryView.LibraryUi.PresentFrame` | prosper/frontends/prosper-app/library_ui.cpp:803-862 | the previous frame is waited for before this one is submitted, dropped, or ends the view |
| `LibraryView.LibraryUi.DestroyCovers` | prosper/frontends/prosper-app/library_ui.cpp:311-320 | every cover's image destroyed and its set returned once |
| `LibraryView.LibraryUi.CoverFor` | prosper/frontends/prosper-app/library_ui.cpp:404-557 | one try per cover; a set only through the budget; the pool-full notice exactly when the budget had no room |
| `AjmDecoder.DrainMovesPrefix` | prosper/frontends/audio_ffmpeg/ajm_ffmpeg.cpp:382-398 | what is drained followed by what is retained is what was retained; compaction and clearing change nothing else |
| `AjmDecoder.DrainKeepsFramesWhole` | prosper/frontends/audio_ffmpeg/ajm_ffmpeg.cpp:382-389 | every drain is whole interleaved frames of one channel count, and leaves whole frames |
| `AjmDecoder.ReceivingAppends` | prosper/frontends/audio_ffmpeg/ajm_ffmpeg.cpp:357-380 | receiving appends exactly the converted samples, in order |
| `AjmDecoder.SendingKeepsFramesWhole` | prosper/frontends/audio_ffmpeg/ajm_ffmpeg.cpp:324-355 | the channel rule never lets frames of two widths share the carry |
| `AjmDecoder.DecodeConserves` | prosper/frontends/audio_ffmpeg/ajm_ffmpeg.cpp:100-238 | one call fails exactly when it leaves the decoder invalid, and otherwise given plus retained is exactly what was converted for the packets sent |
| `AjmDecoder.DecodeBounded` | prosper/frontends/audio_ffmpeg/ajm_ffmpeg.cpp:108-120 | what is retained stays below the high-water mark plus what one packet can add, and the consumed prefix below half the mark |
| `AjmDecoder.DecodeIsFramed` | prosper/frontends/audio_ffmpeg/ajm_ffmpeg.cpp:100-238 | all one call gives is whole interleaved frames, even when the channel count changes on the way |
| `AjmDecoder.RunConserves` | prosper/frontends/audio_ffmpeg/ajm_ffmpeg.cpp:100-238 | over any sequence of calls, inputs and output sizes, with a codec that yields whole frames: conservation, whole frames given and retained, and the bound |
| `AjmDecoder.RunConservesSamples` | prosper/frontends/audio_ffmpeg/ajm_ffmpeg.cpp:100-238 | conservation over any such run whatever the codec answers |
| `AjmDecoder.RunIsFramed` | prosper/frontends/audio_ffmpeg/ajm_ffmpeg.cpp:382-389 | everything a run gives is whole interleaved frames |
| `AjmDecoder.FailedStaysFailed` | prosper/frontends/audio_ffmpeg/ajm_ffmpeg.cpp:93-103 | an invalid decoder never gives or changes anything again |
| `AjmDecoder.SlicingIsInvisible` | prosper/frontends/audio_ffmpeg/ajm_ffmpeg.cpp:100-238 | two guests that got the same packets in got prefixes of one stream out, however they sliced their calls and whatever the codec answers |
| `AjmStream.FfmpegStreamDecoder.Decode` | prosper/frontends/audio_ffmpeg/ajm_ffmpeg.cpp:100-238 | the object's new state, the reported result and the written buffer are the specified ones |
| `AjmStream.FfmpegStreamDecoder.Drain` | prosper/frontends/audio_ffmpeg/ajm_ffmpeg.cpp:382-398 | writes behind what is already there, as many whole frames as fit, and nothing further |
| `AjmStream.FfmpegStreamDecoder.Compact` | prosper/frontends/audio_ffmpeg/ajm_ffmpeg.cpp:390-396 | what was handed out is dropped when it is all of the carry or half the mark |
| `AjmStream.FfmpegStreamDecoder.SendPacket` | prosper/frontends/audio_ffmpeg/ajm_ffmpeg.cpp:181-188 | one send, one retry after draining the codec |
| `AjmStream.FfmpegStreamDecoder.SendUnit` | prosper/frontends/audio_ffmpeg/ajm_ffmpeg.cpp:203-235 | a unit is sent whole and reported whole |
| `AjmStream.FfmpegStreamDecoder.Invalidate` | prosper/frontends/audio_ffmpeg/ajm_ffmpeg.cpp:93-98 | terminal, and the carry gone |
| `AjmStream.FfmpegStreamDecoder.RetireStream` | prosper/frontends/audio_ffmpeg/ajm_ffmpeg.cpp:157-202 | the loop over length-prefixed packets consumes and gives what is specified |
| `AjmStream.FfmpegStreamDecoder.ReceiveAll` | prosper/frontends/audio_ffmpeg/ajm_ffmpeg.cpp:357-380 | the receive loop appends until the codec asks for input or errs |
| `AjmStream.FfmpegStreamDecoder.ConfigureResampler` | prosper/frontends/audio_ffmpeg/ajm_ffmpeg.cpp:324-355 | accepts and refuses formats by the channel bound and the pending-carry rule |
| `AjmStream.OutcomeShape` | prosper/frontends/audio_ffmpeg/ajm_ffmpeg.cpp:279-286 | a failing call reports nothing, gives nothing, and leaves the decoder terminal |
| `OpusFraming.NextIsFirst` | prosper/frontends/audio_ffmpeg/ajm_ffmpeg.cpp:157-171 | what the decoder cuts out of any prefix of the stream is the guest's next packet |
| `OpusFraming.RetiresWholePackets` | prosper/frontends/audio_ffmpeg/ajm_ffmpeg.cpp:157-202 | one call consumes whole packets and sends exactly those; no plausible stream is taken for a desynchronised one |
| `OpusFraming.EveryPacketExactlyOnce` | prosper/frontends/audio_ffmpeg/ajm_ffmpeg.cpp:146-202 | for any packets, slicing and output sizes, as long as the codec does not fail: the consumed offset is a packet boundary, the packets before it were sent once each in order, and given plus retained is what they decode to |
| `OpusFraming.SubmitMakesProgress` | prosper/frontends/audio_ffmpeg/ajm_ffmpeg.cpp:157-202 | a guest offering its next packet whole, with room for a frame, consumes or gets something |
| `AjmPlayback.ReceivingSucceedsIff` | prosper/frontends/audio_ffmpeg/ajm_ffmpeg.cpp:324-380 | receiving succeeds if and only if the codec does not err and every frame keeps the format or has channels within bounds, a rate, a resampler that opens and no channel change over pending samples |
| `AjmPlayback.UnitIsSent` | prosper/frontends/audio_ffmpeg/ajm_ffmpeg.cpp:120-235 | a unit below the mark is sent whole and reported whole, the call succeeding exactly when it is taken; above the mark, or empty, nothing is sent |
| `AjmPlayback.UnitsAreSentInOrder` | prosper/frontends/audio_ffmpeg/ajm_ffmpeg.cpp:203-235 | over any calls the codec is sent exactly the units reported consumed, in order |
| `AjmPlayback.SteadyUnitsPlay` | prosper/frontends/audio_ffmpeg/ajm_ffmpeg.cpp:203-235 | with a codec that behaves no call ever fails, and given plus retained is what those units decode to |
| `AjmPlayback.SteadyStreamPlaysOn` | prosper/frontends/audio_ffmpeg/ajm_ffmpeg.cpp:146-202 | with such a codec a plausible stream never fails, whatever the slices and output sizes |
| `AjmPlayback.WholeStreamIsPlayed` | prosper/frontends/audio_ffmpeg/ajm_ffmpeg.cpp:146-202 | a guest that keeps offering the rest with room for a frame has every byte consumed and every sample given, after at most as many offers as bytes and samples are outstanding |
| `AjmPlayback.FreshPlays` | prosper/frontends/audio_ffmpeg/ajm_ffmpeg.cpp:146-202 | and a fresh decoder is such a start |
| `AjmPlayback.LongLengthFails` | prosper/frontends/audio_ffmpeg/ajm_ffmpeg.cpp:165 | a length above 10200 fails the call and ends the instance, unless it is held back |
| `AjmPlayback.DrainTakesAllThatFits` | prosper/frontends/audio_ffmpeg/ajm_ffmpeg.cpp:382-389 | a drain gives the most whole frames that are there and fit |
| `SaveDialog.NextKeepsInv` | prosper/frontends/dialog_sdl3/dialog_helpers.cpp:414-506 | every guest call and every critical section of the pump keeps: the number in force counts opens and closes, a pending ticket is the current one, a ticket of the latest open is for the running request |
| `SaveDialog.EveryInterleavingIsSafe` | prosper/frontends/dialog_sdl3/platform_ui_sdl3.cpp:434-450 | on every interleaving each open is issued at most one ticket and finished at most once, every completion records exactly the answer, and short of 2^64 - 1 opens and closes under one modal it hits the very request it was answered for |
| `SaveDialog.BeginIsRun` | prosper/frontends/dialog_sdl3/platform_ui_sdl3.cpp:434-438 | the uninterrupted beginning of a pump is a run of the machine's draw, fail and take events with the same dialog and ticket |
| `SaveDialog.EndIsRun` | prosper/frontends/dialog_sdl3/platform_ui_sdl3.cpp:439-450 | its end is a run of the answer and deliver events, or of the answer alone when the last look found the request gone |
| `SaveDialog.DeliveryHitsOnlyItsOwn` | prosper/frontends/dialog_sdl3/dialog_helpers.cpp:453-473 | an answer whose number is no longer in force changes no field; one whose request is still open always finishes it and records the slot or the button |
| `SaveDialog.SameNumber` | prosper/frontends/dialog_sdl3/dialog_helpers.cpp:414-438 | two opens share a number if and only if a whole number of rounds of the 64-bit counter lies between them |
| `SaveDialog.WrappedTicketCrosses` | prosper/frontends/dialog_sdl3/dialog_helpers.cpp:414-459 | the bound is exact: after one round of opens an old answer finishes the new request |
| `SaveDialog.IncrementsSaturate` | prosper/frontends/dialog_sdl3/dialog_helpers.cpp:480-484 | increments add up and stick at the 32-bit maximum, in whatever portions they come |
| `SaveDialog.OpenIsOffered` | prosper/frontends/dialog_sdl3/dialog_helpers.cpp:414-446 | an opened list or message is what the next take hands out, under the number in force; a progress bar is drawn and hands out nothing |
| `SaveDialog.OpenedRequestGetsTicket` | prosper/frontends/dialog_sdl3/dialog_helpers.cpp:414-446 | on every interleaving a list or message neither closed nor replaced before the next take is issued a ticket for that very request |
| `SaveDialog.OpenedRequestIsServed` | prosper/frontends/dialog_sdl3/platform_ui_sdl3.cpp:434-450 | an undisturbed pump brings its modal up, and the answer finishes it with the slot, the button or the cancel it stands for |
| `SaveDialog.OpenedProgressIsDrawn` | prosper/frontends/dialog_sdl3/platform_ui_sdl3.cpp:434-438 | a progress bar is drawn and stays running, or is finished neutrally when its window fails |
| `SaveDialog.ClosedShowsNothing` | prosper/frontends/dialog_sdl3/dialog_helpers.cpp:432-451 | after a close nothing is handed out, drawn or active |
| `SaveDialog.ProgressCounts` | prosper/frontends/dialog_sdl3/dialog_helpers.cpp:480-490 | the bar counts from zero, or from the value last set; other targets and other requests leave it alone |
| `SaveDialogObject.SaveDataDialogState.Open` | prosper/frontends/dialog_sdl3/dialog_helpers.cpp:414-425 | the whole new state, with a ticket pending unless the request is a progress bar |
| `SaveDialogObject.SaveDataDialogState.Close` | prosper/frontends/dialog_sdl3/dialog_helpers.cpp:432-438 | new number, no ticket, not open |
| `SaveDialogObject.SaveDataDialogState.TakePending` | prosper/frontends/dialog_sdl3/dialog_helpers.cpp:440-446 | the ticket is handed out once, and only if it is current and running |
| `SaveDialogObject.SaveDataDialogState.Complete` | prosper/frontends/dialog_sdl3/dialog_helpers.cpp:453-459 | finishes only the running request of that number |
| `SaveDialogObject.SaveDataDialogState.CompleteList` | prosper/frontends/dialog_sdl3/dialog_helpers.cpp:461-473 | records the slot's directory, or a cancel when nothing valid was selected |
| `SaveDialogObject.SaveDataDialogState.IsActive` | prosper/frontends/dialog_sdl3/dialog_helpers.cpp:448-451 | running under exactly that number |
| `SaveDialogObject.SaveDataDialogState.ProgressSet` | prosper/frontends/dialog_sdl3/dialog_helpers.cpp:486-490 | only on a running progress bar's only target |
| `SaveDialogObject.SaveDataDialogState.ProgressInc` | prosper/frontends/dialog_sdl3/dialog_helpers.cpp:480-484 | saturating, and only on a running progress bar's only target |
| `SaveDialogObject.SaveDataDialogState.FinishProgress` | prosper/frontends/dialog_sdl3/dialog_helpers.cpp:492-500 | finishes only the running progress bar of that number |
| `SaveDialogObject.SaveDataDialogState.BeginPump` | prosper/frontends/dialog_sdl3/platform_ui_sdl3.cpp:434-438 | the pump up to its modal: a progress window that fails is finished, then the ticket is taken |
| `SaveDialogObject.SaveDataDialogState.EndPump` | prosper/frontends/dialog_sdl3/platform_ui_sdl3.cpp:439-450 | the pump after its modal, whatever the guest did meanwhile: an invalidated modal delivers nothing, any other its answer |
| `ImeText.U16ToUtf8` | prosper/frontends/dialog_sdl3/dialog_helpers.cpp:523-535 | reads up to the NUL or 4096 units and encodes them, surrogate pairs joined and lone surrogates kept |
| `ImeText.WriteImeText` | prosper/frontends/dialog_sdl3/dialog_helpers.cpp:549-575 | for any bytes: writes the longest fitting prefix of the code points read, a NUL behind it, and nothing further |
| `ImeText.AppendCodePoint` | prosper/frontends/dialog_sdl3/dialog_helpers.cpp:510-521 | appends the one to four bytes of a code point |
| `ImeText.WriteNext` | prosper/frontends/dialog_sdl3/dialog_helpers.cpp:553-572 | one turn of the loop: a stray byte passed over, a code point written, or the end |
| `ImeText.RoundTrip` | prosper/frontends/dialog_sdl3/dialog_helpers.cpp:523-575 | text of at most 4096 non-zero units, unpaired surrogates included, comes back unchanged when there is room for it |
| `ImeText.WritesLongestPrefix` | prosper/frontends/dialog_sdl3/dialog_helpers.cpp:549-575 | for well-formed UTF-8 (section 4 of RFC 3629) the output is the UTF-16 (section 2.1 of RFC 2781) of the longest code-point prefix that fits, and reads back as that prefix, so no pair is split |
| `ImeText.DecodingInverts` | prosper/frontends/dialog_sdl3/dialog_helpers.cpp:510-521 | decoding inverts encoding for every sequence of encodable code points |
| `ImeText.PairingLosesNothing` | prosper/frontends/dialog_sdl3/dialog_helpers.cpp:523-535 | splitting units into code points and back is the identity on every unit sequence |
| `Utf8Grammar.WrittenIsWellFormed` | prosper/frontends/dialog_sdl3/dialog_helpers.cpp:510-521 | the bytes written of any code points are well-formed by the byte ranges of section 4 of RFC 3629 if and only if none is a surrogate, and then carry those values |
| `Utf8Grammar.HostTextIsWellFormed` | prosper/frontends/dialog_sdl3/dialog_helpers.cpp:523-535 | the host is handed well-formed UTF-8 if and only if the guest's text was well-formed UTF-16 |
| `Utf8Grammar.ReadsWellFormed` | prosper/frontends/dialog_sdl3/dialog_helpers.cpp:549-562 | of bytes well-formed by those ranges the reader makes the values they carry |
| `Utf8Grammar.DamagedText` | prosper/frontends/dialog_sdl3/dialog_helpers.cpp:554-561 | a stray byte is passed over and a character cut off ends the reading |
| `Utf8Grammar.BufferHoldsLongestPrefix` | prosper/frontends/dialog_sdl3/dialog_helpers.cpp:549-575 | of such bytes the guest's buffer gets the UTF-16 of the most values that fit |
| `Utf8Grammar.PairsCarryTwentyBits` | prosper/frontends/dialog_sdl3/dialog_helpers.cpp:523-535 | a surrogate pair carries ten bits a half above the first plane, and each such code point has exactly one pair |
| `WindowsCommandLine.QuoteWindowsArgument` | prosper/frontends/prosper-app/game_path.hpp:100-117 | the loop with its backslash counter writes the specified quoting |
| `WindowsCommandLine.MakeCommandLine` | prosper/frontends/prosper-app/game_path.hpp:120-127 | quoted arguments joined by single blanks |
| `WindowsCommandLine.ReadsEscaped` | prosper/frontends/prosper-app/game_path.hpp:95-117 | reading a quoted body up to its closing quote recovers the argument, for every pending run of backslashes |
| `WindowsCommandLine.JoinedReadsBack` | prosper/frontends/prosper-app/game_path.hpp:95-127 | parsing the joined line by the backslash-run and quote rules returns exactly the arguments, under each known meaning of two quotes in a row |
| `WindowsCommandLine.ProgramNameReadsBack` | prosper/frontends/prosper-app/game_path.hpp:120-127 | the separate rule for the program name agrees if and only if the first argument has no quote and no trailing backslash |
| `AppConfig.ConfigTrim` | prosper/frontends/prosper-app/app_config.hpp:43-48 | the two index loops cut what is specified: a carriage return only at the end |
| `AppConfig.ParseAppConfig` | prosper/frontends/prosper-app/app_config.hpp:53-77 | the line loop computes the fold of the line readings |
| `AppConfig.ReadSetting` | prosper/frontends/prosper-app/app_config.hpp:60-75 | one line's effect: comments and lines without a key ignored, unknown settings kept |
| `AppConfig.SerializeAppConfig` | prosper/frontends/prosper-app/app_config.hpp:79-93 | the file is the specified lines in order, for any order of visiting the per-title entries |
| `AppConfig.ParsedIsClean` | prosper/frontends/prosper-app/app_config.hpp:53-77 | every value, title and kept line read from any text is one a line can carry and give back |
| `AppConfig.WrittenReadsBack` | prosper/frontends/prosper-app/app_config.hpp:79-93 | such a configuration is read back unchanged from what is written of it |
| `AppConfig.NormalFormInOneStep` | prosper/frontends/prosper-app/app_config.hpp:43-93 | for every text, what is read survives the rewrite and a second rewrite changes nothing |
| `AppConfig.LinesAreTheText` | prosper/frontends/prosper-app/app_config.hpp:53-57 | the lines are the text cut at its line feeds |
| `AppConfig.TrimTakesPadding` | prosper/frontends/prosper-app/app_config.hpp:43-48 | trimming takes blanks in front, blanks and carriage returns behind, and nothing else |
| `AppConfig.LastLineReads` | prosper/frontends/prosper-app/app_config.hpp:53-77 | a line added at the end is applied to what the text before it said |
| `AppConfig.SettingsAreRead` | prosper/frontends/prosper-app/app_config.hpp:60-75 | the four settings under their names; music is off for `0`, `false`, `off` and `no` and on for anything else |
| `AppConfig.SilentLines` | prosper/frontends/prosper-app/app_config.hpp:60-65 | a line says nothing if and only if it is empty, a comment or without an equals sign |
| `AppConfig.SettingsAreWritten` | prosper/frontends/prosper-app/app_config.hpp:79-93 | every setting has its line in the file, the music switch always, a directory and default arguments when they are not empty |
| `AppConfig.UnknownLinesInOrder` | prosper/frontends/prosper-app/app_config.hpp:60-75 | the kept lines are those of the text that set nothing known, in order |
| `RiffAt9.ParseAt9Riff` | prosper/frontends/prosper-app/launcher_media.hpp:218-320 | the walk in place computes the specified clip or the same reason for refusal |
| `RiffAt9.ReadFmt` | prosper/frontends/prosper-app/launcher_media.hpp:246-262 | the codec parameters, or which check failed |
| `RiffAt9.ReadLoop` | prosper/frontends/prosper-app/launcher_media.hpp:267-282 | the first loop if it runs forward |
| `RiffAt9.WalkChunks` | prosper/frontends/prosper-app/launcher_media.hpp:239-288 | the loop over chunk offsets visits what the recursive walk visits |
| `RiffAt9.AcceptedIsSound` | prosper/frontends/prosper-app/launcher_media.hpp:218-320 | for every byte string: an accepted clip's data is inside the walked area, a positive whole number of superframes, no parameter is zero, and its loop satisfies start < end < total |
| `RiffAt9.WalkIsFold` | prosper/frontends/prosper-app/launcher_media.hpp:239-288 | over written, word-padded chunks, and whatever incomplete rest follows them, the walk visits exactly the chunks |
| `RiffAt9.FoldFindsData` | prosper/frontends/prosper-app/launcher_media.hpp:263-266 | the last data chunk wins, at its own offset |
| `RiffAt9.FoldFindsLoop` | prosper/frontends/prosper-app/launcher_media.hpp:267-282 | the last sampler chunk that gives a forward loop wins |
| `RiffAt9.WrittenFileDecides` | prosper/frontends/prosper-app/launcher_media.hpp:218-320 | a written RIFF/WAVE file is accepted if and only if every fmt chunk is ATRAC9's and the last ones are usable; the clip is the whole superframes at the front of the last data chunk, with the last forward loop if that lies inside the clip |
| `RiffAt9.MissingChunkRefused` | prosper/frontends/prosper-app/launcher_media.hpp:290-291 | without a fmt or a data chunk nothing is accepted |
| `RiffAt9.CutOffFileKeepsItsChunks` | prosper/frontends/prosper-app/launcher_media.hpp:226-288 | a file cut off inside a chunk, or behind one with an impossible length, is read as the chunks before it |
| `RiffAt9.PlaysAround` | prosper/frontends/prosper-app/launcher_media.hpp:202-211 | the n-th frame from the start: n up to the loop's end and then around the loop, or n modulo the clip without one |
| `RiffLayout.FormatIsRead` | prosper/frontends/prosper-app/launcher_media.hpp:246-262 | for every format chunk written field by field: taken if and only if it is extensible, its extension has at least 34 bytes and its GUID is ATRAC9's, and each parameter is the field of that name |
| `RiffLayout.ShortFormatRefused` | prosper/frontends/prosper-app/launcher_media.hpp:246-262 | anything below 52 bytes is refused |
| `RiffLayout.LoopIsRead` | prosper/frontends/prosper-app/launcher_media.hpp:267-282 | for every sampler chunk written field by field: the first loop's start and end if it runs forward |
| `RiffLayout.ShortSamplerHasNoLoop` | prosper/frontends/prosper-app/launcher_media.hpp:267-282 | below 60 bytes there is none |
| `RiffLayout.TagsAreSpelled` | prosper/frontends/prosper-app/launcher_media.hpp:218-282 | the five tags in ASCII |
| `RiffLayout.GuidIsAtrac9` | prosper/frontends/prosper-app/launcher_media.hpp:156-162 | the GUID 47E142D2-36BA-4D8D-88FC-61654F8C836C in little-endian fields |
| `RiffLayout.OnlyWaveIsRead` | prosper/frontends/prosper-app/launcher_media.hpp:222-224 | nothing is accepted that does not begin with RIFF and WAVE |
| `RiffLayout.ClipLastsItsBlocks` | prosper/frontends/prosper-app/launcher_media.hpp:188-196 | the length in frames is the data size times the samples per block over the block size, exactly |
| `RiffLayout.LoopIsKept` | prosper/frontends/prosper-app/launcher_media.hpp:312-319 | a loop is kept if and only if it runs forward and ends inside that length |
| `JsonScanner.JsonObjectEnd` | prosper/frontends/prosper-app/game_library.hpp:88-104 | the nested loops compute the specified scan; an end found lies just past a closing brace |
| `JsonScanner.SkipString` | prosper/frontends/prosper-app/game_library.hpp:93-97 | the place behind a string's closing quote, escapes taking two characters |
| `JsonScanner.EndsWhereTheObjectEnds` | prosper/frontends/prosper-app/game_library.hpp:85-104 | for every object text (sections 2 to 7 of RFC 8259) with any text before and behind, the end found is the end of that object |
| `JsonScanner.CutOffFindsNoEnd` | prosper/frontends/prosper-app/game_library.hpp:85-104 | for an object cut off anywhere no end is found |
| `AudioPacing.AudioSink.Output` | prosper/frontends/audio_sdl3/audio_sink_sdl3.cpp:296-352 | an open port with a rate gets its deadline advanced in place and the caller that deadline to wait for; any other call changes nothing |
| `AudioPacing.AudioSink.Open` | prosper/frontends/audio_sdl3/audio_sink_sdl3.cpp:248-276 | the grid starts anew once the device opened; the port is open only if its stream runs |
| `AudioPacing.AudioSink.SetPaused` | prosper/frontends/audio_sdl3/audio_sink_sdl3.cpp:561-577 | only a resume that ends a pause starts the grids anew, and only of open ports; nothing else changes |
| `AudioPacing.AudioSink.Close` | prosper/frontends/audio_sdl3/audio_sink_sdl3.cpp:542-549 | the port is closed and its deadline left as it is |
| `AudioPacing.TargetsAreApart` | prosper/frontends/audio_sdl3/audio_sink_sdl3.cpp:335-351 | targets are at least one grain apart |
| `AudioPacing.TargetsNearArrival` | prosper/frontends/audio_sdl3/audio_sink_sdl3.cpp:343-351 | no call waits for more than its arrival plus a grain, or gets a target more than three grains old |
| `AudioPacing.BoundedBurst` | prosper/frontends/audio_sdl3/audio_sink_sdl3.cpp:335-352 | whatever the arrivals and oversleeps, any window holds at most as many returns as whole grains, plus five: at the default cushion whatever the restarts; at cushions of two to five on a port that is not restarted, once the clock is past the instant whose restarted deadline is zero |
| `AudioPacing.BoundDecided` | prosper/frontends/audio_sdl3/audio_sink_sdl3.cpp:335-352 | exactly when that bound holds of every run: with restarts if and only if the cushion is one; without, if and only if it is one, or at most five and the clock is past that instant |
| `AudioPacing.RestartsUnpace` | prosper/frontends/audio_sdl3/audio_sink_sdl3.cpp:572-574 | at any cushion above one, with a restart before every call, any number of calls return at one instant |
| `AudioPacing.ZeroDeadlineUnpaces` | prosper/frontends/audio_sdl3/audio_sink_sdl3.cpp:348-350 | and so they do, without restarts, at the one instant whose restarted deadline is zero, which reads as unset |
| `AudioPacing.BurstReachesBound` | prosper/frontends/audio_sdl3/audio_sink_sdl3.cpp:343-351 | for every number of grains there is a run that reaches the bound |
| `AudioPacing.LongCushionIsUnpaced` | prosper/frontends/audio_sdl3/audio_sink_sdl3.cpp:345-351 | with a cushion of six grains or more any number of calls return, one a nanosecond, without waiting, on a port that is never restarted |
| `AudioPacing.GridDoesNotDrift` | prosper/frontends/audio_sdl3/audio_sink_sdl3.cpp:335-351 | without restarts, and never more than four grains late, the n-th target is exactly n grains on |
| `AudioPacing.DeadlinesAreTargets` | prosper/frontends/audio_sdl3/audio_sink_sdl3.cpp:335-351 | the deadlines a port gives its callers are the targets these bounds are about |
| `AudioPacing.GrainIsPlayingTime` | prosper/frontends/audio_sdl3/audio_sink_sdl3.cpp:343 | a grain is its frames' playing time at the port's rate, rounded down to a nanosecond |
| `AudioPacing.StartsAfresh` | prosper/frontends/audio_sdl3/audio_sink_sdl3.cpp:248-276 | at the default cushion the first call after an open or a resume waits one grain from its arrival |
| `TlsLayout.AlignUpRounds` | prosper/src/loader/tls_layout.hpp:17-19 | for a power of two the mask form is the least multiple not below its input if and only if the inner sum does not overflow |
| `TlsLayout.MakeStaticTlsLayout` | prosper/src/loader/tls_layout.hpp:25-40 | the loop computes the specified distances and total, and zeros for no modules |
| `TlsLayout.BlockIsPacked` | prosper/src/loader/tls_layout.hpp:32-37 | each block lies as close below the previous one as its size and alignment allow |
| `TlsLayout.BlocksAreApartAndAligned` | prosper/src/loader/tls_layout.hpp:21-40 | blocks are disjoint, inside the area below the thread pointer, and aligned wherever the thread pointer is aligned to the area |
| `TlsLayout.AreaIsAligned` | prosper/src/loader/tls_layout.hpp:38 | the total is the least multiple of 64 and of the largest alignment that covers the blocks, hence of every alignment |
| `TlsLayout.AlignmentsAsAsked` | prosper/src/loader/tls_layout.hpp:30-38 | a module that asks for no alignment gets 16; the area's alignment is 64 or the largest asked for |
| `FrameGrab.CapturesAreExclusivePairs` | prosper/frontends/prosper-app/frame_grab_naming.hpp:157-229 | on every interleaving of any number of runs with files appearing from outside: earlier files stay, successful runs hold two files of one stem each and share none, an unsuccessful run whose removals succeeded left nothing |
| `FrameGrab.NextKeepsInv` | prosper/frontends/prosper-app/frame_grab_naming.hpp:157-229 | after every single file-system call each run owns exactly the files it holds, and finished runs never change |
| `FrameGrab.Directory.ReserveFrameGrab` | prosper/frontends/prosper-app/frame_grab_naming.hpp:179-229 | the suffix loop computes the specified reservation under any create and remove failures |
| `FrameGrab.Directory.CreateExclusive` | prosper/frontends/prosper-app/frame_grab_naming.hpp:160-172 | creates only what is not there and tells a taken name from a failure |
| `FrameGrab.Directory.Remove` | prosper/frontends/prosper-app/frame_grab_naming.hpp:210-213 | removes the file or fails |
| `FrameGrab.TakesLeastFree` | prosper/frontends/prosper-app/frame_grab_naming.hpp:194-229 | without failures a run alone takes the least suffix whose two names are free and changes nothing else, or reports that there is none |
| `FrameGrab.ReserveIsSchedule` | prosper/frontends/prosper-app/frame_grab_naming.hpp:157-229 | the sequential reservation is one of the interleaved machine's schedules, failures included |
| `FrameGrab.StemsAreNumbered` | prosper/frontends/prosper-app/frame_grab_naming.hpp:193-195 | the preferred name has no number, the first collision reads "-2", the n-th n + 1 in decimal, and no two attempts share a name |
| `FrameGrab.DirectoryIsTrimmed` | prosper/frontends/prosper-app/frame_grab_naming.hpp:183-185 | the directory without its trailing separators, a lone one kept, and "." for none |
| `FrameGrab.SecondCaptureIsNumbered` | prosper/frontends/prosper-app/frame_grab_naming.hpp:179-229 | in an empty directory two captures of one second get `base.prgbundle` with `base.bmp` and then `base-2` for both |

## Left out

- Vulkan, SDL, ImGui, FFmpeg, image decoding: each call is an input that says how it ended. Images are named by creation order, and one that is created and destroyed again inside a failed upload is not counted.
- `LibraryMedia::init`, `shutdown` and `load_one`: the model starts initialised, and the worker's answer is any answer the request allows.
- `pump_audio`: stream queueing, playback cursors and gain ramps; the model says which track has a gain, not how much of it was queued.
- Floating-point rounding: alphas are reals, and truncation to whole milliseconds is exact. Media clocks, frame counter, load generation and image numbers are unbounded.
- Fields of `LibraryMedia` are grouped into records by the sections of its header (screen, audio, loads); aliasing between them is not modelled.
- That a background fading out is never evicted while visible: `FrameChangesOnlyByPublishing` says instead by what alone a frame can change the picture.
- MediaContinuity.InterruptionIsContinuous: says nothing about a clock inside its first 200 ms (450 ms for a reversal, which the code then does not attempt), where back-dating is clamped at zero.
- MediaLoads.AnsweredLoadEnds: counts the answers of worker, fence and frame; that they can always be given is `LoadCanEnd`, and no time is promised.
- MediaDelivery.EveryGoodRunDelivers: is for titles that have the assets looked for and for uploads and sets that succeed; for any others `LoadCanEnd` gives readiness, with nothing to show or play.
- MediaDelivery.CanBeDelivered: gives steps that deliver; as with `LoadCanEnd`, no time is promised.
- LibraryState.UncappedLibraryNeverRunsOut: assumes that needed pool grows succeed; when one fails covers are refused through the budget, which is modelled in `EnsureCapacity`.
- A null budget, which `LibraryUi` never passes.
- `Parser` and `Sniff` framing of the AJM decoder, channel count and rate in the reported result, and the count of decoded frames.
- The 32-bit width of the byte counts in a decoder's result: inputs and outputs stay below 4 GiB.
- AjmStream.FfmpegStreamDecoder.Decode: after a failure only validity and the emptied carry are specified; the other fields are never read again.
- OpusFraming.SubmitMakesProgress: is for at most eight channels, the most an instance's flags can ask for.
- SaveDialog.EveryInterleavingIsSafe: window events inside a modal are not modelled; its answer is any answer, or "invalidated" exactly when its last look found the request gone.
- Reading guest request structures, message and error dialogs, and the text-entry dialog's own status flags.
- ImeText.U16ToUtf8: a guest string must be readable up to its NUL or for 4096 units, as the source reads it; NUL guest addresses are modelled.
- Bitwise operations of the UTF codecs are written as the arithmetic they amount to; those of the thread-local layout are modelled bit by bit.
- `decide_open_action`, `resolve_games_dir`, `guest_args_for`: tables of one branch each.
- RiffAt9.ParseAt9Riff: a refused clip's partly filled fields are not part of the result.
- The language lookup and the other searches of `game_library.hpp`.
- AudioPacing.BoundedBurst: is for one caller per port and one grain length; calls on a closed port, or on one without a rate, return at once and are not counted, and the wait while the app is paused is part of a call's arrival.
- TlsLayout.BlocksAreApartAndAligned: assumes that no sum overflows; `AlignUpRounds` says what happens when one does.
- FrameGrab: making the directory, the clock and the spelling of the stamp are parameters; a run's names are any stem.
- Window controls, navigation, overlays, capture triggers, DDS checks and the Python tools would only add easy members.

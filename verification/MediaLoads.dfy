/** The load protocol and the music, over every interleaving of the UI thread and the worker: no load
    is lost, nothing stale is installed, the track belongs to the art, and a load that is answered at
    every stage ends its transition. */
module MediaLoads {
  import opened Wrappers
  import opened LaunchPolicy
  import opened MediaState

  // --- what is in flight ---------------------------------------------------------------------------

  predicate RequestCurrent(l: Loads, r: Option<LoadRequest>) {
    r.Some? && r.value.generation == l.generation
  }

  predicate ResultCurrent(l: Loads, r: Option<LoadResult>) {
    r.Some? && r.value.generation == l.generation
  }

  function RequestAge(r: Option<LoadRequest>, otherwise: nat): nat {
    if r.Some? then r.value.generation else otherwise
  }

  function ResultAge(r: Option<LoadResult>, otherwise: nat): nat {
    if r.Some? then r.value.generation else otherwise
  }

  /** Generations only grow along the pipeline, so overwriting a mailbox never drops a newer load for
      an older one. */
  predicate PipelineOrdered(l: Loads) {
    && ResultAge(l.deferred, 0) <= l.generation
    && ResultAge(l.result, 0) <= RequestAge(l.working, l.generation)
    && RequestAge(l.working, 0) <= RequestAge(l.request, l.generation)
    && ResultAge(l.result, 0) <= RequestAge(l.request, l.generation)
    && RequestAge(l.request, 0) <= l.generation
  }

  /** Whatever carries the current generation is a load of the shown title. */
  predicate CurrentIsShown(l: Loads, shown: string) {
    && (RequestCurrent(l, l.request) ==> l.request.value.root == shown)
    && (RequestCurrent(l, l.working) ==> l.working.value.root == shown)
    && (ResultCurrent(l, l.result) ==> l.result.value.root == shown)
    && (ResultCurrent(l, l.deferred) ==> l.deferred.value.root == shown)
  }

  predicate UploadShown(m: Media) {
    m.store.pending.Some? && m.store.pending.value.root == m.screen.shownRoot
  }

  predicate HasCarrier(m: Media) {
    || RequestCurrent(m.loads, m.loads.request)
    || RequestCurrent(m.loads, m.loads.working)
    || ResultCurrent(m.loads, m.loads.result)
    || ResultCurrent(m.loads, m.loads.deferred)
    || UploadShown(m)
  }

  predicate Waiting(v: Screen) {
    !v.incomingReady
  }

  predicate NothingLost(m: Media) {
    Waiting(m.screen) ==> m.screen.transitionActive && HasCarrier(m)
  }

  // --- music ---------------------------------------------------------------------------------------

  predicate BelongsOrNone(track: Option<Track>, root: string) {
    track.Some? && root != "" ==> track.value.root == root
  }

  predicate MusicMatchesArt(m: Media) {
    && BelongsOrNone(m.audio.current, m.screen.shownRoot)
    && BelongsOrNone(m.audio.outgoing, m.screen.outgoingRoot)
  }

  predicate Audible(track: Option<Track>) {
    track.Some? ==> track.value.pcm != []
  }

  /** A parked result whose samples were already moved out is one whose track is already playing. */
  predicate ParkedWasInstalled(m: Media) {
    ResultCurrent(m.loads, m.loads.deferred) && m.audio.musicOn
      && m.loads.deferred.value.musicOk && m.loads.deferred.value.pcm == []
    ==> BelongsTo(m.audio.current, m.loads.deferred.value.root)
  }

  predicate TracksHaveSamples(m: Media) {
    && Audible(m.audio.current) && Audible(m.audio.outgoing) && Audible(m.audio.recent)
    && (m.loads.result.Some? && m.loads.result.value.musicOk ==> m.loads.result.value.pcm != [])
    && (m.loads.result.Some? && m.loads.result.value.imageOk ==> m.loads.result.value.root != "")
    && (m.loads.deferred.Some? ==> m.loads.deferred.value.root != "")
    && ParkedWasInstalled(m)
  }

  predicate SilentWhenOff(a: Audio) {
    !a.musicOn ==> a.current.None? && a.outgoing.None? && a.recent.None?
  }

  predicate LoadsInv(m: Media) {
    && PipelineOrdered(m.loads)
    && CurrentIsShown(m.loads, m.screen.shownRoot)
    && NothingLost(m)
    && MusicMatchesArt(m)
    && TracksHaveSamples(m)
    && SilentWhenOff(m.audio)
  }

  /** The title whose art the transition has on screen at `nowMs`. */
  function ArtRoot(v: Screen, nowMs: nat): string {
    if OutgoingShows(v, nowMs) then v.outgoingRoot else v.shownRoot
  }

  // --- preservation --------------------------------------------------------------------------------

  /** What the screen is after a load starts, apart from the instants of its fades. */
  lemma StartedScreen(m: Media, root: string, nowMs: nat)
    ensures var reverses := Reverses(m, root, nowMs);
            var v := StartLoad(m, root, nowMs).screen;
            && v.shownRoot == root && v.transitionActive
            && v.incomingReady == (reverses || root in m.store.cache)
            && v.outgoingRoot == (if reverses then "" else ArtRoot(m.screen, nowMs))
  {
  }

  lemma ReversedKeepsLoads(m: Media, root: string, nowMs: nat)
    requires LoadsInv(m) && Reverses(m, root, nowMs)
    ensures LoadsInv(StartLoad(m, root, nowMs))
  {
    StartedScreen(m, root, nowMs);
  }

  /** The same without the fades: new generation, `departing` leaving, `root` arriving. */
  lemma RefocusedKeepsLoads(m: Media, n: Media, root: string, departing: Option<Track>, music: bool, image: bool)
    requires LoadsInv(m) && (departing == m.audio.current || departing == m.audio.outgoing)
    requires n.screen.shownRoot == root && n.screen.transitionActive
    requires BelongsOrNone(departing, n.screen.outgoingRoot)
    requires n.audio == CrossFadedAudio(m.audio, departing, root)
    requires n.loads.generation == m.loads.generation + 1
    requires n.loads == m.loads.(generation := n.loads.generation, started := n.loads.started,
                                 request := n.loads.request)
    requires if n.screen.incomingReady && !music then n.loads.request == m.loads.request
             else n.loads.request == Some(LoadRequest(n.loads.generation, root, music, image))
    ensures LoadsInv(n)
  {
  }

  lemma CrossFadedKeepsLoads(m: Media, root: string, nowMs: nat)
    requires LoadsInv(m) && !Reverses(m, root, nowMs)
    ensures LoadsInv(StartLoad(m, root, nowMs))
  {
    StartedScreen(m, root, nowMs);
    var departing := if OutgoingShows(m.screen, nowMs) then m.audio.outgoing else m.audio.current;
    var n := StartLoad(m, root, nowMs);
    var cached := root in m.store.cache;
    var music := m.audio.musicOn && n.audio.current.None?;
    RefocusedKeepsLoads(m, n, root, departing, music, !cached);
  }

  lemma StartLoadKeepsLoads(m: Media, root: string, nowMs: nat)
    requires LoadsInv(m)
    ensures LoadsInv(StartLoad(m, root, nowMs))
  {
    if Reverses(m, root, nowMs) {
      ReversedKeepsLoads(m, root, nowMs);
    } else {
      CrossFadedKeepsLoads(m, root, nowMs);
    }
  }

  /** A result of the current generation ends the wait, moves into the upload, or is parked again. */
  lemma ApplyResultKeepsLoads(m: Media, res: LoadResult, nowMs: nat, starts: bool)
    requires PipelineOrdered(m.loads) && CurrentIsShown(m.loads, m.screen.shownRoot)
    requires MusicMatchesArt(m) && SilentWhenOff(m.audio) && TracksHaveSamples(m)
    requires m.screen.incomingReady || m.screen.transitionActive
    requires res.generation <= m.loads.generation
    requires res.generation == m.loads.generation ==> res.root == m.screen.shownRoot
    requires res.imageOk ==> res.root != ""
    requires res.generation == m.loads.generation && Installs(m.audio, res) ==> res.pcm != []
    requires res.generation == m.loads.generation && m.audio.musicOn && res.musicOk && res.pcm == []
             ==> BelongsTo(m.audio.current, res.root)
    requires Waiting(m.screen) ==> HasCarrier(m) || res.generation == m.loads.generation
    ensures LoadsInv(ApplyResult(m, res, nowMs, starts))
    ensures res.generation != m.loads.generation ==>
              ApplyResult(m, res, nowMs, starts) == m.(loads := m.loads.(discarded := m.loads.discarded + 1))
    ensures ApplyResult(m, res, nowMs, starts).loads.generation == m.loads.generation
    ensures ApplyResult(m, res, nowMs, starts).screen.shownRoot == m.screen.shownRoot
  {
  }

  lemma ClaimResultKeepsLoads(m: Media, nowMs: nat, io: Io)
    requires LoadsInv(m)
    ensures LoadsInv(ClaimResult(m, nowMs, io))
  {
    var m1 := m.(loads := m.loads.(result := None));
    var m2 := RetryDeferred(m1, nowMs, io);
    if m.loads.deferred.Some? {
      if Waiting(m.screen) && ResultCurrent(m.loads, m.loads.result) && !ResultCurrent(m.loads, m.loads.deferred) {
        assert m2.loads.deferred.None?;
      } else {
        var m1' := m1.(loads := m1.loads.(deferred := None));
        if Waiting(m.screen) && !HasCarrier(m1') && m.loads.deferred.value.generation != m.loads.generation {
          assert false;
        }
        ApplyResultKeepsLoads(m1', m.loads.deferred.value, nowMs, io.deferredStarts);
      }
    }
    if m.loads.result.Some? {
      ApplyResultKeepsLoads(m2, m.loads.result.value, nowMs, io.resultStarts);
    }
  }

  lemma PollUploadKeepsLoads(m: Media, nowMs: nat, io: Io)
    requires LoadsInv(m)
    ensures LoadsInv(PollUpload(m, nowMs, io))
  {
  }

  lemma BeginFrameKeepsLoads(m: Media, nowMs: nat)
    requires LoadsInv(m)
    ensures LoadsInv(BeginFrame(m, nowMs))
    ensures LoadsInv(BeginFrame(m, nowMs).(screen := BeginFrame(m, nowMs).screen.(focusPending := false)))
  {
  }

  lemma FinishTransitionKeepsLoads(m: Media, nowMs: nat)
    requires LoadsInv(m)
    ensures LoadsInv(FinishTransition(m, nowMs))
  {
  }

  lemma UpdateKeepsLoads(m: Media, nowMs: nat, io: Io)
    requires LoadsInv(m)
    ensures LoadsInv(Update(m, nowMs, io))
  {
    if m.ready {
      var m1 := BeginFrame(m, nowMs);
      BeginFrameKeepsLoads(m, nowMs);
      if LoadDue(m1.screen, nowMs) && m1.screen.focusRoot != m1.screen.shownRoot {
        StartLoadKeepsLoads(m1.(screen := m1.screen.(focusPending := false)), m1.screen.focusRoot, nowMs);
      }
      var m2 := ServeFocus(m1, nowMs);
      PollUploadKeepsLoads(m2, nowMs, io);
      ClaimResultKeepsLoads(PollUpload(m2, nowMs, io), nowMs, io);
      FinishTransitionKeepsLoads(ClaimResult(PollUpload(m2, nowMs, io), nowMs, io), nowMs);
    }
  }

  lemma MusicKeepsLoads(m: Media, on: bool, deviceOpens: bool)
    requires LoadsInv(m)
    ensures LoadsInv(SetMusicEnabled(m, on, deviceOpens))
  {
  }

  lemma ReleaseKeepsLoads(m: Media)
    requires LoadsInv(m)
    ensures LoadsInv(ReleaseBackgrounds(m))
  {
    hide ReleaseStorage;
  }

  lemma WorkerKeepsLoads(m: Media, a: LoadAnswer)
    requires LoadsInv(m)
    ensures Enabled(m, Take) ==> LoadsInv(WorkerTake(m))
    ensures Enabled(m, Post(a)) ==> LoadsInv(WorkerPost(m, a))
  {
  }

  /** On every step of every interleaving of the UI thread and the worker. */
  lemma StepKeepsLoads(m: Media, step: Step)
    requires LoadsInv(m) && Enabled(m, step)
    ensures LoadsInv(Next(m, step))
  {
    match step
    case Focus(_, _) =>
    case Frame(nowMs, io) => UpdateKeepsLoads(m, nowMs, io);
    case Music(on, opens) => MusicKeepsLoads(m, on, opens);
    case Release => ReleaseKeepsLoads(m);
    case Take => WorkerKeepsLoads(m, LoadAnswer(false, []));
    case Post(a) => WorkerKeepsLoads(m, a);
  }

  // --- what is heard is what is shown --------------------------------------------------------------

  /** The track with a positive gain at `nowMs`, if there is one. */
  function Heard(m: Media, nowMs: nat): Option<Track> {
    if OutgoingShows(m.screen, nowMs) then m.audio.outgoing
    else if Visible(m.screen, nowMs) > 0.0 then m.audio.current
    else None
  }

  /** At any instant, the track with a gain is the one of the title whose art has the opacity; the one
      exception is art that was released, which leaves its music playing over nothing. */
  lemma HeardBelongsToArt(m: Media, nowMs: nat)
    requires LoadsInv(m)
    ensures Heard(m, nowMs).Some? ==>
              && Heard(m, nowMs).value.pcm != []
              && (ArtRoot(m.screen, nowMs) == "" || Heard(m, nowMs).value.root == ArtRoot(m.screen, nowMs))
  {
  }

  /** A track still held for the title that is now chosen plays on; nothing is decoded again for it. */
  lemma HeldTrackResumes(m: Media, root: string, nowMs: nat, track: Track)
    requires m.audio.musicOn && track.root == root
    requires if OutgoingShows(m.screen, nowMs) then m.audio.outgoing == Some(track) || (m.audio.recent == Some(track) && !BelongsTo(m.audio.outgoing, root))
             else m.audio.current == Some(track) || (m.audio.recent == Some(track) && !BelongsTo(m.audio.current, root))
    requires Reverses(m, root, nowMs) ==> m.audio.outgoing == Some(track)
    ensures var n := StartLoad(m, root, nowMs);
            && n.audio.current == Some(track)
            && (n.loads.request != m.loads.request ==> n.loads.request.Some? && !n.loads.request.value.wantMusic)
  {
    hide TouchLru, ReversedScreen, CrossFadedScreen;
  }

  lemma ReversalKeepsTheSound(m: Media, root: string, nowMs: nat)
    requires m.audio.musicOn && LoadsInv(m) && Heard(m, nowMs).Some? && Reverses(m, root, nowMs)
    ensures StartLoad(m, root, nowMs).audio.current == Heard(m, nowMs)
  {
    hide TouchLru, ReversedScreen;
    assert BelongsTo(m.audio.outgoing, root);
  }

  /** What was heard before an interruption is still there to be heard after it. */
  lemma InterruptionKeepsTheSound(m: Media, root: string, nowMs: nat)
    requires m.audio.musicOn && LoadsInv(m) && Heard(m, nowMs).Some?
    ensures var n := StartLoad(m, root, nowMs);
            n.audio.outgoing == Heard(m, nowMs) || n.audio.current == Heard(m, nowMs)
  {
    hide LoadsInv, TouchLru, CrossFadedScreen, ReversedScreen;
    if Reverses(m, root, nowMs) {
      ReversalKeepsTheSound(m, root, nowMs);
    }
  }

  /** The track of a finished transition is kept, and going back to its title resumes it. */
  lemma FinishedTrackIsKept(m: Media, nowMs: nat)
    requires m.screen.transitionActive && FadeNow(m.screen, nowMs).done && m.audio.outgoing.Some?
    ensures var n := FinishTransition(m, nowMs);
            n.audio.recent == m.audio.outgoing && n.audio.current == m.audio.current && !n.screen.transitionActive
  {
  }

  lemma SettledReturnResumes(m: Media, nowMs: nat, track: Track)
    requires m.audio.musicOn && !m.screen.transitionActive && m.audio.recent == Some(track)
    requires !BelongsTo(m.audio.current, track.root)
    ensures StartLoad(m, track.root, nowMs).audio.current == Some(track)
  {
    HeldTrackResumes(m, track.root, nowMs, track);
  }

  /** The switch does what it says, as far as there is a device. */
  lemma MusicSwitches(m: Media, on: bool, opens: bool)
    requires m.ready
    ensures var a := SetMusicEnabled(m, on, opens).audio;
            && (!on ==> !a.musicOn)
            && (on && (m.audio.streamOpen || opens) ==> a.musicOn)
            && (a.musicOn ==> on)
  {
  }

  // --- progress ------------------------------------------------------------------------------------

  /** How many answers the shown title's load still needs. */
  function Stage(m: Media): nat {
    if !Waiting(m.screen) then 0
    else if UploadShown(m) then 1
    else if ResultCurrent(m.loads, m.loads.result) || ResultCurrent(m.loads, m.loads.deferred) then 2
    else if RequestCurrent(m.loads, m.loads.working) then 3
    else if m.loads.working.None? then 4
    else 5
  }

  /** A step that starts no new load: the user's choice rests. */
  predicate Quiet(m: Media, step: Step) {
    match step
    case Frame(nowMs, _) => m.ready && !(LoadDue(m.screen, nowMs) && m.screen.focusRoot != m.screen.shownRoot)
    case Music(_, _) => false
    case Release => false
    case _ => true
  }

  /** The step the load's stage is waiting for. */
  predicate Answers(m: Media, step: Step) {
    match Stage(m)
    case 0 => false
    case 1 => step.Frame? && step.io.fenceSignalled
    case 2 => step.Frame? && step.io.fenceSignalled
    case 4 => step.Take?
    case _ => step.Post?
  }

  /** Taking the claimed and the parked result out of their places and applying them, the older first. */
  lemma ClaimingAdvances(m: Media, nowMs: nat, io: Io)
    requires LoadsInv(m)
    ensures Stage(ClaimResult(m, nowMs, io)) <= Stage(m)
    ensures m.store.pending.None? && Stage(m) == 2 ==> Stage(ClaimResult(m, nowMs, io)) <= 1
  {
    var m1 := m.(loads := m.loads.(result := None));
    var m2 := RetryDeferred(m1, nowMs, io);
    RetryingAdvances(m, nowMs, io);
    if m.loads.result.Some? {
      hide RetryDeferred;
      ApplyingAdvances(m2, m.loads.result.value, nowMs, io.resultStarts);
    }
  }

  /** With the claimed result set aside: the parked one moves the load on, or changes nothing about it. */
  lemma RetryingAdvances(m: Media, nowMs: nat, io: Io)
    requires LoadsInv(m)
    ensures var n := RetryDeferred(m.(loads := m.loads.(result := None)), nowMs, io);
            && n.loads.generation == m.loads.generation && n.screen.shownRoot == m.screen.shownRoot
            && (m.screen.incomingReady ==> n.screen.incomingReady)
            && (ResultCurrent(m.loads, m.loads.deferred) ==>
                  Stage(n) <= (if m.store.pending.None? then 1 else 2) && (Stage(m) == 1 ==> Stage(n) <= 1))
            && (!ResultCurrent(m.loads, m.loads.deferred) ==>
                  && n.loads.request == m.loads.request && n.loads.working == m.loads.working && n.loads.result.None?
                  && !ResultCurrent(n.loads, n.loads.deferred)
                  && n.store == m.store && n.screen == m.screen)
  {
    var m0 := m.(loads := m.loads.(result := None, deferred := None));
    if m.loads.deferred.Some? {
      ApplyingAdvances(m0, m.loads.deferred.value, nowMs, io.deferredStarts);
    }
  }

  /** A current result moves the load on; a stale one leaves every part of it alone. */
  lemma ApplyingAdvances(m: Media, res: LoadResult, nowMs: nat, starts: bool)
    requires res.generation == m.loads.generation ==> res.root == m.screen.shownRoot
    ensures var n := ApplyResult(m, res, nowMs, starts);
            && (res.generation != m.loads.generation ==> n == m.(loads := m.loads.(discarded := m.loads.discarded + 1)))
            && (res.generation == m.loads.generation ==>
                  && Stage(n) <= (if m.store.pending.None? then 1 else 2)
                  && (Stage(m) == 1 ==> Stage(n) <= 1))
            && (m.screen.incomingReady ==> n.screen.incomingReady)
            && n.loads.generation == m.loads.generation && n.screen.shownRoot == m.screen.shownRoot
  {
  }

  /** Serving a focus that starts nothing leaves the load alone. */
  lemma QuietServing(m: Media, nowMs: nat)
    requires LoadsInv(m) && m.ready && !(LoadDue(m.screen, nowMs) && m.screen.focusRoot != m.screen.shownRoot)
    ensures var m1 := ServeFocus(BeginFrame(m, nowMs), nowMs);
            LoadsInv(m1) && Stage(m1) == Stage(m) && m1.store.pending == m.store.pending
  {
    hide LoadsInv;
    BeginFrameKeepsLoads(m, nowMs);
  }

  lemma PollingAdvances(m: Media, nowMs: nat, io: Io)
    ensures var n := PollUpload(m, nowMs, io);
            && Stage(n) <= Stage(m)
            && (io.fenceSignalled ==> n.store.pending.None?)
            && (io.fenceSignalled && Stage(m) == 1 ==> Stage(n) == 0)
  {
  }

  lemma FinishingKeepsStage(m: Media, nowMs: nat)
    ensures Stage(FinishTransition(m, nowMs)) == Stage(m)
  {
  }

  lemma QuietFrameAdvances(m: Media, nowMs: nat, io: Io)
    requires LoadsInv(m) && Quiet(m, Frame(nowMs, io))
    ensures Stage(Update(m, nowMs, io)) + (if Answers(m, Frame(nowMs, io)) then 1 else 0) <= Stage(m)
  {
    var m1 := ServeFocus(BeginFrame(m, nowMs), nowMs);
    var m2 := PollUpload(m1, nowMs, io);
    QuietServing(m, nowMs);
    PollUploadKeepsLoads(m1, nowMs, io);
    PollingAdvances(m1, nowMs, io);
    ClaimingAdvances(m2, nowMs, io);
    FinishingKeepsStage(ClaimResult(m2, nowMs, io), nowMs);
    hide LoadsInv, Stage, ServeFocus, BeginFrame, PollUpload, ClaimResult, FinishTransition;
  }

  /** No quiet step sends a load back, and the answer its stage waits for moves it on. */
  lemma QuietStepAdvances(m: Media, step: Step)
    requires LoadsInv(m) && Enabled(m, step) && Quiet(m, step)
    ensures Stage(Next(m, step)) + (if Answers(m, step) then 1 else 0) <= Stage(m)
  {
    match step
    case Frame(nowMs, io) =>
      hide Update, LoadsInv, Stage, Answers;
      QuietFrameAdvances(m, nowMs, io);
    case _ =>
  }

  function FenceSignals(): Io {
    Io(true, true, true, true, true)
  }

  /** Unless a changed focus is still to be served, which would start another load, the answer the stage
      waits for can be given. */
  lemma AnswerIsPossible(m: Media) returns (step: Step)
    requires LoadsInv(m) && m.ready && Stage(m) > 0 && !m.screen.focusPending
    ensures Enabled(m, step) && Quiet(m, step) && Answers(m, step) && !step.Focus?
  {
    step := if Stage(m) <= 2 then Frame(m.screen.lastUpdateMs, FenceSignals())
            else if Stage(m) == 4 then Take
            else Post(LoadAnswer(false, []));
  }

  ghost predicate QuietRun(m: Media, steps: seq<Step>)
    decreases |steps|
  {
    steps == [] || (Enabled(m, steps[0]) && Quiet(m, steps[0]) && QuietRun(Next(m, steps[0]), steps[1..]))
  }

  ghost function After(m: Media, steps: seq<Step>): Media
    requires QuietRun(m, steps)
    decreases |steps|
  {
    if steps == [] then m else After(Next(m, steps[0]), steps[1..])
  }

  ghost function AnswersIn(m: Media, steps: seq<Step>): nat
    requires QuietRun(m, steps)
    decreases |steps|
  {
    if steps == [] then 0
    else (if Answers(m, steps[0]) then 1 else 0) + AnswersIn(Next(m, steps[0]), steps[1..])
  }

  /** However the threads interleave while the choice rests, every answer counts against a budget of
      at most five; once they are given the shown title is ready, with an image or without. */
  lemma {:induction false} AnsweredLoadEnds(m: Media, steps: seq<Step>)
    requires LoadsInv(m) && QuietRun(m, steps)
    ensures Stage(m) <= 5
    ensures Stage(After(m, steps)) + AnswersIn(m, steps) <= Stage(m)
    ensures AnswersIn(m, steps) == Stage(m) ==> After(m, steps).screen.incomingReady
    decreases |steps|
  {
    if steps != [] {
      QuietStepAdvances(m, steps[0]);
      StepKeepsLoads(m, steps[0]);
      AnsweredLoadEnds(Next(m, steps[0]), steps[1..]);
    }
  }

  lemma ApplyingLeavesFocus(m: Media, res: LoadResult, nowMs: nat, starts: bool)
    ensures var n := ApplyResult(m, res, nowMs, starts);
            && n.ready == m.ready && n.screen.focusPending == m.screen.focusPending
            && (m.screen.incomingReady ==> n.screen == m.screen)
  {
  }

  lemma ClaimingLeavesFocus(m: Media, nowMs: nat, io: Io)
    ensures var n := ClaimResult(m, nowMs, io);
            && n.ready == m.ready && n.screen.focusPending == m.screen.focusPending
            && (m.screen.incomingReady ==> n.screen == m.screen)
  {
    hide ApplyResult;
    var m1 := m.(loads := m.loads.(result := None));
    if m.loads.deferred.Some? {
      ApplyingLeavesFocus(m1.(loads := m1.loads.(deferred := None)), m.loads.deferred.value, nowMs, io.deferredStarts);
    }
    if m.loads.result.Some? {
      ApplyingLeavesFocus(RetryDeferred(m1, nowMs, io), m.loads.result.value, nowMs, io.resultStarts);
    }
  }

  lemma FrameLeavesFocus(m: Media, nowMs: nat, io: Io)
    requires m.ready && !m.screen.focusPending
    ensures Update(m, nowMs, io).ready && !Update(m, nowMs, io).screen.focusPending
  {
    hide ClaimResult, BeginFrameStorage, Publish;
    ClaimingLeavesFocus(PollUpload(BeginFrame(m, nowMs), nowMs, io), nowMs, io);
  }

  lemma RestStays(m: Media, step: Step)
    requires Enabled(m, step) && Quiet(m, step) && !step.Focus? && m.ready && !m.screen.focusPending
    ensures Next(m, step).ready && !Next(m, step).screen.focusPending
  {
    match step
    case Frame(nowMs, io) => FrameLeavesFocus(m, nowMs, io);
    case _ =>
  }

  /** So from any such state at most five steps make the shown title ready: the wait is never a deadlock. */
  lemma {:induction false} LoadCanEnd(m: Media) returns (steps: seq<Step>)
    requires LoadsInv(m) && m.ready && !m.screen.focusPending
    ensures QuietRun(m, steps) && |steps| <= 5 && After(m, steps).screen.incomingReady
    ensures |steps| <= Stage(m)
    decreases Stage(m)
  {
    steps := [];
    if Stage(m) > 0 {
      var step := AnswerIsPossible(m);
      StepKeepsLoads(m, step);
      QuietStepAdvances(m, step);
      hide LoadsInv, Stage, Answers;
      RestStays(m, step);
      var more := LoadCanEnd(Next(m, step));
      steps := [step] + more;
      assert steps[1..] == more;
    }
  }

  /** And once it is ready, the first frame past the fade-in settles on it. */
  lemma ReadyTransitionSettles(m: Media, nowMs: nat, io: Io)
    requires m.ready && m.screen.incomingReady && Quiet(m, Frame(nowMs, io))
    requires nowMs >= m.screen.transitionMs + FADE_OUT_MS + FADE_IN_MS && nowMs >= m.screen.readyMs + FADE_IN_MS
    ensures var v := Update(m, nowMs, io).screen;
            !v.transitionActive && v.shownRoot == m.screen.shownRoot
  {
    hide ClaimResult, BeginFrameStorage, Publish;
    ClaimingLeavesFocus(PollUpload(ServeFocus(BeginFrame(m, nowMs), nowMs), nowMs, io), nowMs, io);
  }
}

/** The library's background-art and focus-music runtime as a value and its steps as functions: what
    library_media.cpp does to its fields, one function per method. The UI thread's steps and the
    worker's two steps (take a request, post a result) interleave freely; each is atomic because the
    source does it under one mutex or on one thread. Driver, decoder and device answers are inputs. */
module MediaState {
  import opened Wrappers
  import opened LaunchPolicy
  import opened DescriptorBudget

  const RETIRE_FRAMES: nat := 3

  /** Decoded PCM and the title it belongs to. */
  datatype Track = Track(root: string, pcm: seq<int>)

  datatype LoadRequest = LoadRequest(generation: nat, root: string, wantMusic: bool, wantBackground: bool)

  datatype LoadResult = LoadResult(generation: nat, root: string, imageOk: bool, musicOk: bool, pcm: seq<int>)

  /** A GPU image, named by the order of its creation. Every published background holds one set. */
  datatype Background = Background(image: nat)

  datatype PendingUpload = PendingUpload(root: string, image: nat)

  datatype Retired = Retired(image: nat, frame: nat)

  /** The driver as this layer sees it: the next image it will create and those already destroyed. */
  datatype Gpu = Gpu(nextImage: nat, destroyed: set<nat>)

  /** Where backgrounds live: the resident ones with their recency order, those waiting to be
      destroyed, the upload in flight, and the counter and driver they draw on. */
  datatype Storage = Storage(
    cache: map<string, Background>, lru: seq<string>, retired: seq<Retired>, frameCounter: nat,
    pending: Option<PendingUpload>, budget: Count, gpu: Gpu)

  /** Focus and transition. */
  datatype Screen = Screen(
    focusRoot: string, focusChangedMs: nat, focusPending: bool,
    shownRoot: string, outgoingRoot: string, transitionMs: nat, readyMs: nat,
    incomingReady: bool, transitionActive: bool, lastUpdateMs: nat)

  datatype Audio = Audio(
    streamOpen: bool, musicOn: bool,
    current: Option<Track>, outgoing: Option<Track>, recent: Option<Track>)

  /** The request mailbox, what the worker holds, the result mailbox, and the parked result. */
  datatype Loads = Loads(
    request: Option<LoadRequest>, working: Option<LoadRequest>,
    result: Option<LoadResult>, deferred: Option<LoadResult>,
    generation: nat, started: nat, discarded: nat)

  datatype Media = Media(ready: bool, store: Storage, screen: Screen, audio: Audio, loads: Loads)

  /** A runtime that has just been initialised. `musicOn` is whether the audio device opened. */
  function Fresh(musicOn: bool, budget: Count): Media {
    Media(true,
          Storage(map[], [], [], 0, None, budget, Gpu(0, {})),
          Screen("", 0, false, "", "", 0, 0, true, false, 0),
          Audio(musicOn, musicOn, None, None, None),
          Loads(None, None, None, None, 0, 0, 0))
  }

  // --- storage -------------------------------------------------------------------------------------

  /** `retire_evicted`: whatever of `gone` is still cached moves to the retire list. */
  function RetireEvicted(s: Storage, gone: seq<string>): Storage
    decreases |gone|
  {
    if gone == [] then s
    else if gone[0] !in s.cache then RetireEvicted(s, gone[1..])
    else RetireEvicted(s.(retired := s.retired + [Retired(s.cache[gone[0]].image, s.frameCounter)],
                          cache := s.cache - {gone[0]}),
                       gone[1..])
  }

  /** The LRU position of `root` renewed, and what no longer fits retired. */
  function TouchLru(s: Storage, root: string): Storage {
    var t := LruTouch(s.lru, root, BACKGROUND_CACHE_CAPACITY);
    RetireEvicted(s.(lru := t.order), t.evicted)
  }

  function InsertBackground(s: Storage, root: string, image: nat): Storage {
    var s1 := if root in s.cache
              then s.(retired := s.retired + [Retired(s.cache[root].image, s.frameCounter)],
                      cache := s.cache - {root})
              else s;
    TouchLru(s1.(cache := s1.cache[root := Background(image)]), root)
  }

  predicate Expired(r: Retired, frameCounter: nat, force: bool) {
    force || frameCounter - r.frame >= RETIRE_FRAMES
  }

  function Kept(retired: seq<Retired>, frameCounter: nat, force: bool): (kept: seq<Retired>)
    ensures |kept| <= |retired|
  {
    if retired == [] then []
    else if Expired(retired[0], frameCounter, force) then Kept(retired[1..], frameCounter, force)
    else [retired[0]] + Kept(retired[1..], frameCounter, force)
  }

  function ExpiredImages(retired: seq<Retired>, frameCounter: nat, force: bool): set<nat> {
    set i | 0 <= i < |retired| && Expired(retired[i], frameCounter, force) :: retired[i].image
  }

  function Destroyed(gpu: Gpu, images: set<nat>): Gpu {
    gpu.(destroyed := gpu.destroyed + images)
  }

  function CollectRetired(s: Storage, force: bool): Storage {
    var kept := Kept(s.retired, s.frameCounter, force);
    s.(retired := kept,
       budget := s.budget.Released(|s.retired| - |kept|),
       gpu := Destroyed(s.gpu, ExpiredImages(s.retired, s.frameCounter, force)))
  }

  function CachedImages(cache: map<string, Background>): set<nat> {
    set r | r in cache :: cache[r].image
  }

  function DestroyAllBackgrounds(s: Storage): Storage {
    s.(cache := map[], lru := [],
       budget := s.budget.Released(|s.cache|),
       gpu := Destroyed(s.gpu, CachedImages(s.cache)))
  }

  function PendingImage(pending: Option<PendingUpload>): set<nat> {
    if pending.Some? then {pending.value.image} else {}
  }

  /** The upload in flight holds no set yet, so dropping it returns none. */
  function DropPending(s: Storage): Storage {
    s.(pending := None, gpu := Destroyed(s.gpu, PendingImage(s.pending)))
  }

  function ReleaseStorage(s: Storage): Storage {
    DestroyAllBackgrounds(CollectRetired(DropPending(s), true))
  }

  /** What the driver answers during one update. */
  datatype Io = Io(fenceSignalled: bool, viewCreated: bool, setAdded: bool,
                   deferredStarts: bool, resultStarts: bool)

  /** The finished upload published if its view and its set could be had, destroyed otherwise. */
  function Publish(s: Storage, io: Io): Storage
    requires s.pending.Some?
  {
    var p := s.pending.value;
    if io.viewCreated && s.budget.HasRoom() && io.setAdded
    then InsertBackground(s.(budget := s.budget.Taken()), p.root, p.image).(pending := None)
    else DropPending(s)
  }

  function BeginUpload(s: Storage, root: string): Storage {
    s.(pending := Some(PendingUpload(root, s.gpu.nextImage)),
       gpu := s.gpu.(nextImage := s.gpu.nextImage + 1))
  }

  function BeginFrameStorage(s: Storage): Storage {
    CollectRetired(s.(frameCounter := s.frameCounter + 1), false)
  }

  function ReleaseBackgrounds(m: Media): Media {
    m.(store := ReleaseStorage(m.store),
       screen := m.screen.(focusRoot := "", focusPending := false, shownRoot := "", outgoingRoot := "",
                           transitionActive := false, incomingReady := true),
       loads := m.loads.(deferred := None, generation := m.loads.generation + 1))
  }

  // --- focus and loads -----------------------------------------------------------------------------

  function SetFocus(m: Media, root: string, nowMs: nat): Media {
    if !m.ready || root == m.screen.focusRoot then m
    else m.(screen := m.screen.(focusRoot := root, focusChangedMs := nowMs, focusPending := true))
  }

  function FadeNow(v: Screen, nowMs: nat): FadeState {
    FadeStateAt(v.transitionMs, nowMs, v.incomingReady, v.readyMs)
  }

  /** Focus is back on the very background that is fading out and still visible. */
  predicate Reverses(m: Media, root: string, nowMs: nat) {
    && m.screen.transitionActive && nowMs >= FADE_OUT_MS + FADE_IN_MS
    && m.screen.outgoingRoot != "" && m.screen.outgoingRoot == root && root in m.store.cache
    && FadeNow(m.screen, nowMs).oldAlpha > 0.0
  }

  predicate BelongsTo(track: Option<Track>, root: string) {
    track.Some? && track.value.root == root
  }

  function TruncatedMs(share: real, lengthMs: nat): nat
    requires share >= 0.0
  {
    assert share * lengthMs as real >= 0.0;
    (share * lengthMs as real).Floor
  }

  function Before(nowMs: nat, ms: nat): nat {
    if nowMs >= ms then nowMs - ms else 0
  }

  function Clamped(x: real): (c: real)
    ensures 0.0 <= c <= 1.0
    ensures 0.0 <= x <= 1.0 ==> c == x
  {
    if x < 0.0 then 0.0 else if x > 1.0 then 1.0 else x
  }

  function ReversedScreen(v: Screen, root: string, nowMs: nat): Screen {
    var back := Clamped(FadeNow(v, nowMs).oldAlpha);
    var transition := Before(Before(nowMs, TruncatedMs(back, FADE_IN_MS)), FADE_OUT_MS);
    v.(transitionMs := transition, readyMs := transition + FADE_OUT_MS,
       incomingReady := true, transitionActive := true, shownRoot := root, outgoingRoot := "")
  }

  function Reversed(m: Media, root: string, nowMs: nat): Media {
    var track := if m.audio.musicOn && BelongsTo(m.audio.outgoing, root) then m.audio.outgoing else None;
    m.(store := TouchLru(m.store, root),
       screen := ReversedScreen(m.screen, root, nowMs),
       audio := m.audio.(current := track, outgoing := None),
       loads := if !m.audio.musicOn || track.Some? then m.loads
                else m.loads.(request := Some(LoadRequest(m.loads.generation, root, true, false))))
  }

  /** The side of the transition that is on screen, and so becomes the one that fades out. */
  predicate OutgoingShows(v: Screen, nowMs: nat) {
    v.transitionActive && FadeNow(v, nowMs).oldAlpha > 0.0
  }

  function Visible(v: Screen, nowMs: nat): real {
    if !v.transitionActive then 1.0
    else if FadeNow(v, nowMs).oldAlpha > 0.0 then FadeNow(v, nowMs).oldAlpha
    else FadeNow(v, nowMs).newAlpha
  }

  function CrossFadedScreen(v: Screen, root: string, nowMs: nat, cached: bool): Screen {
    var backdate := TruncatedMs(1.0 - Clamped(Visible(v, nowMs)), FADE_OUT_MS);
    var transition := Before(nowMs, backdate);
    v.(outgoingRoot := if OutgoingShows(v, nowMs) then v.outgoingRoot else v.shownRoot,
       transitionMs := transition, transitionActive := true, shownRoot := root,
       incomingReady := cached, readyMs := if cached then transition + FADE_OUT_MS else v.readyMs)
  }

  /** `departing` is the track that was audible; a track already held for `root` is resumed. */
  function CrossFadedAudio(a: Audio, departing: Option<Track>, root: string): Audio {
    if a.musicOn && BelongsTo(departing, root) then a.(current := departing, outgoing := None)
    else if a.musicOn && BelongsTo(a.recent, root) then a.(current := a.recent, outgoing := departing, recent := None)
    else a.(current := None, outgoing := departing)
  }

  function CrossFaded(m: Media, root: string, nowMs: nat): Media {
    var departing := if OutgoingShows(m.screen, nowMs) then m.audio.outgoing else m.audio.current;
    var audio := CrossFadedAudio(m.audio, departing, root);
    var cached := root in m.store.cache;
    var wantMusic := m.audio.musicOn && audio.current.None?;
    m.(store := if cached then TouchLru(m.store, root) else m.store,
       screen := CrossFadedScreen(m.screen, root, nowMs, cached),
       audio := audio,
       loads := if cached && !wantMusic then m.loads
                else m.loads.(request := Some(LoadRequest(m.loads.generation, root, wantMusic, !cached))))
  }

  function StartLoad(m: Media, root: string, nowMs: nat): Media {
    var m1 := m.(loads := m.loads.(generation := m.loads.generation + 1, started := m.loads.started + 1));
    if Reverses(m1, root, nowMs) then Reversed(m1, root, nowMs) else CrossFaded(m1, root, nowMs)
  }

  /** `deviceOpens` is whether opening the audio device succeeds if it has to be opened. */
  function SetMusicEnabled(m: Media, on: bool, deviceOpens: bool): Media {
    if !m.ready || on == m.audio.musicOn then m
    else if !on then m.(audio := m.audio.(musicOn := false, current := None, outgoing := None, recent := None))
    else
      var open := m.audio.streamOpen || deviceOpens;
      var root := m.screen.shownRoot;
      var gen := m.loads.generation + 1;
      m.(audio := m.audio.(streamOpen := open, musicOn := open),
         loads := if !open || root == "" then m.loads
                  else m.loads.(generation := gen, started := m.loads.started + 1,
                                request := Some(LoadRequest(gen, root, true, root !in m.store.cache))))
  }

  // --- worker --------------------------------------------------------------------------------------

  /** What loading one title produced. A title without a root has no assets to find. */
  datatype LoadAnswer = LoadAnswer(imageOk: bool, pcm: seq<int>)

  predicate CanAnswer(req: LoadRequest, a: LoadAnswer) {
    && (a.imageOk ==> req.wantBackground && req.root != "")
    && (a.pcm != [] ==> req.wantMusic && req.root != "")
  }

  function WorkerTake(m: Media): Media
    requires m.loads.request.Some? && m.loads.working.None?
  {
    m.(loads := m.loads.(working := m.loads.request, request := None))
  }

  function WorkerPost(m: Media, a: LoadAnswer): Media
    requires m.loads.working.Some? && CanAnswer(m.loads.working.value, a)
  {
    var req := m.loads.working.value;
    m.(loads := m.loads.(working := None,
                         result := Some(LoadResult(req.generation, req.root, a.imageOk, a.pcm != [], a.pcm))))
  }

  // --- results and uploads -------------------------------------------------------------------------

  function MarkIncomingReady(v: Screen, nowMs: nat): Screen {
    if v.incomingReady then v else v.(incomingReady := true, readyMs := nowMs)
  }

  predicate Installs(a: Audio, res: LoadResult) {
    a.musicOn && res.musicOk && !BelongsTo(a.current, res.root)
  }

  function InstallTrack(a: Audio, res: LoadResult): Audio {
    if Installs(a, res) then a.(current := Some(Track(res.root, res.pcm))) else a
  }

  /** Installing moves the samples out of the result. */
  function AfterInstall(a: Audio, res: LoadResult): LoadResult {
    if Installs(a, res) then res.(pcm := []) else res
  }

  /** `uploadStarts` is whether an upload that is not refused as busy can be submitted. */
  function ApplyResult(m: Media, res: LoadResult, nowMs: nat, uploadStarts: bool): Media {
    if res.generation != m.loads.generation then m.(loads := m.loads.(discarded := m.loads.discarded + 1))
    else
      var m1 := m.(audio := InstallTrack(m.audio, res));
      if res.imageOk && res.root !in m.store.cache && m.store.pending.Some? then
        m1.(loads := m.loads.(deferred := Some(AfterInstall(m.audio, res))))
      else if res.imageOk && res.root !in m.store.cache && uploadStarts then
        m1.(store := BeginUpload(m.store, res.root))
      else
        m1.(screen := MarkIncomingReady(m.screen, nowMs))
  }

  /** The parked result goes first: it is older. */
  function RetryDeferred(m: Media, nowMs: nat, io: Io): Media {
    if m.loads.deferred.None? then m
    else ApplyResult(m.(loads := m.loads.(deferred := None)), m.loads.deferred.value, nowMs, io.deferredStarts)
  }

  function ClaimResult(m: Media, nowMs: nat, io: Io): Media {
    var m1 := RetryDeferred(m.(loads := m.loads.(result := None)), nowMs, io);
    if m.loads.result.Some? then ApplyResult(m1, m.loads.result.value, nowMs, io.resultStarts) else m1
  }

  function PollUpload(m: Media, nowMs: nat, io: Io): Media {
    if m.store.pending.None? || !io.fenceSignalled then m
    else
      m.(store := Publish(m.store, io),
         screen := if m.store.pending.value.root == m.screen.shownRoot
                   then MarkIncomingReady(m.screen, nowMs) else m.screen)
  }

  // --- one frame -----------------------------------------------------------------------------------

  function BeginFrame(m: Media, nowMs: nat): Media {
    m.(store := BeginFrameStorage(m.store), screen := m.screen.(lastUpdateMs := nowMs))
  }

  predicate LoadDue(v: Screen, nowMs: nat) {
    v.focusPending && FocusLoadDue(v.focusChangedMs, nowMs)
  }

  function ServeFocus(m: Media, nowMs: nat): Media {
    if !LoadDue(m.screen, nowMs) then m
    else
      var m1 := m.(screen := m.screen.(focusPending := false));
      if m.screen.focusRoot != m.screen.shownRoot then StartLoad(m1, m.screen.focusRoot, nowMs) else m1
  }

  function FinishTransition(m: Media, nowMs: nat): Media {
    if m.screen.transitionActive && FadeNow(m.screen, nowMs).done
    then m.(screen := m.screen.(transitionActive := false, outgoingRoot := ""),
            audio := m.audio.(outgoing := None,
                              recent := if m.audio.outgoing.Some? then m.audio.outgoing else m.audio.recent))
    else m
  }

  function Update(m: Media, nowMs: nat, io: Io): Media {
    if !m.ready then m
    else
      var m1 := ServeFocus(BeginFrame(m, nowMs), nowMs);
      FinishTransition(ClaimResult(PollUpload(m1, nowMs, io), nowMs, io), nowMs)
  }

  /** What is drawn behind the grid: a title's image at an opacity, or nothing. */
  datatype Backdrop = Nothing | Shows(root: string, image: nat, alpha: real)

  function BackdropOf(m: Media): (b: Backdrop)
    ensures b.Shows? ==> b.root in m.store.cache && b.image == m.store.cache[b.root].image && 0.0 < b.alpha <= 1.0
  {
    if !m.ready then Nothing
    else
      var now := m.screen.lastUpdateMs;
      var root := if OutgoingShows(m.screen, now) then m.screen.outgoingRoot else m.screen.shownRoot;
      var alpha := Visible(m.screen, now);
      if root == "" || alpha <= 0.0 || root !in m.store.cache then Nothing
      else Shows(root, m.store.cache[root].image, alpha)
  }

  // --- every interleaving --------------------------------------------------------------------------

  datatype Step =
    | Focus(root: string, nowMs: nat)
    | Frame(nowMs: nat, io: Io)
    | Music(on: bool, deviceOpens: bool)
    | Release
    | Take
    | Post(answer: LoadAnswer)

  predicate Enabled(m: Media, step: Step) {
    match step
    case Take => m.loads.request.Some? && m.loads.working.None?
    case Post(a) => m.loads.working.Some? && CanAnswer(m.loads.working.value, a)
    case _ => true
  }

  function Next(m: Media, step: Step): Media
    requires Enabled(m, step)
  {
    match step
    case Focus(root, nowMs) => SetFocus(m, root, nowMs)
    case Frame(nowMs, io) => Update(m, nowMs, io)
    case Music(on, opens) => SetMusicEnabled(m, on, opens)
    case Release => ReleaseBackgrounds(m)
    case Take => WorkerTake(m)
    case Post(a) => WorkerPost(m, a)
  }
}

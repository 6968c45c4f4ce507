/** What a user gets: a focus that rests is served in the very next frame, and when the title's assets
    can be had they are delivered: its art resident and on screen, its music playing. */
module MediaDelivery {
  import opened Wrappers
  import opened LaunchPolicy
  import opened DescriptorBudget
  import opened MediaState
  import opened MediaStorage
  import opened MediaLoads

  // --- a changed focus -----------------------------------------------------------------------------

  lemma FocusIsTaken(m: Media, root: string, nowMs: nat)
    requires m.ready && root != m.screen.focusRoot
    ensures var v := SetFocus(m, root, nowMs).screen;
            v.focusRoot == root && v.focusPending && v.focusChangedMs == nowMs && v.shownRoot == m.screen.shownRoot
    ensures SetFocus(m, root, nowMs) == m.(screen := SetFocus(m, root, nowMs).screen)
  {
  }

  lemma StaleIsDropped(m: Media, res: LoadResult, nowMs: nat, starts: bool)
    requires res.generation != m.loads.generation
    ensures var n := ApplyResult(m, res, nowMs, starts); n == m.(loads := n.loads) && n.loads == m.loads.(discarded := n.loads.discarded)
  {
  }

  predicate AllStale(l: Loads) {
    !ResultCurrent(l, l.result) && !ResultCurrent(l, l.deferred)
  }

  lemma ClaimingStaleChangesNothing(m: Media, nowMs: nat, io: Io)
    requires AllStale(m.loads)
    ensures var n := ClaimResult(m, nowMs, io);
            && n == m.(loads := n.loads)
            && n.loads == m.loads.(result := None, deferred := None, discarded := n.loads.discarded)
  {
    hide ApplyResult;
    var m1 := m.(loads := m.loads.(result := None));
    if m.loads.deferred.Some? {
      StaleIsDropped(m1.(loads := m1.loads.(deferred := None)), m.loads.deferred.value, nowMs, io.deferredStarts);
    }
    if m.loads.result.Some? {
      StaleIsDropped(RetryDeferred(m1, nowMs, io), m.loads.result.value, nowMs, io.resultStarts);
    }
  }

  /** What a started load asks for: exactly what is missing, under the new generation. */
  predicate Asks(m: Media, n: Media, root: string) {
    var music := n.audio.musicOn && !BelongsTo(n.audio.current, root);
    && n.screen.shownRoot == root
    && n.loads.generation == m.loads.generation + 1 && n.loads.started == m.loads.started + 1
    && n.audio.musicOn == m.audio.musicOn
    && (root !in m.store.cache ==>
          n.loads.request == Some(LoadRequest(m.loads.generation + 1, root, music, true)))
    && (root in m.store.cache && music ==>
          n.loads.request == Some(LoadRequest(m.loads.generation + 1, root, true, false)))
  }

  lemma StartedLoadAsks(m: Media, root: string, nowMs: nat)
    ensures var n := StartLoad(m, root, nowMs);
            && Asks(m, n, root) && n.ready == m.ready
            && n.screen.focusPending == m.screen.focusPending
            && n.loads.result == m.loads.result && n.loads.deferred == m.loads.deferred
  {
    hide TouchLru, FadeStateAt;
  }

  lemma PollingAndFinishingKeepAsking(m: Media, nowMs: nat, io: Io)
    ensures var n := PollUpload(m, nowMs, io);
            && n.loads == m.loads && n.audio == m.audio && n.ready == m.ready
            && n.screen.shownRoot == m.screen.shownRoot && n.screen.focusPending == m.screen.focusPending
    ensures var n := FinishTransition(m, nowMs);
            && n.loads == m.loads && n.audio.current == m.audio.current && n.audio.musicOn == m.audio.musicOn
            && n.ready == m.ready && n.store == m.store
            && n.screen.shownRoot == m.screen.shownRoot && n.screen.focusPending == m.screen.focusPending
  {
    hide Publish;
  }

  /** The frame in which a changed focus has rested 180 milliseconds serves it: that title is shown from
      then on, and whatever it still needs is asked for under a new generation. */
  lemma RestedFocusIsServed(m: Media, nowMs: nat, io: Io)
    requires LoadsInv(m) && m.ready
    requires m.screen.focusPending && nowMs >= m.screen.focusChangedMs + 180 && m.screen.focusRoot != m.screen.shownRoot
    ensures var n := Update(m, nowMs, io);
            Asks(m, n, m.screen.focusRoot) && !n.screen.focusPending && n.ready
  {
    var root := m.screen.focusRoot;
    var m1 := BeginFrame(m, nowMs);
    var m2 := StartLoad(m1.(screen := m1.screen.(focusPending := false)), root, nowMs);
    assert ServeFocus(m1, nowMs) == m2;
    StartedLoadAsks(m1.(screen := m1.screen.(focusPending := false)), root, nowMs);
    hide LoadsInv, StartLoad, ServeFocus, BeginFrameStorage, Publish, ClaimResult, FinishTransition, PollUpload;
    PollingAndFinishingKeepAsking(m2, nowMs, io);
    var m3 := PollUpload(m2, nowMs, io);
    assert AllStale(m3.loads) by { StartedOutdates(m, m2); }
    ClaimingStaleChangesNothing(m3, nowMs, io);
    PollingAndFinishingKeepAsking(ClaimResult(m3, nowMs, io), nowMs, io);
  }

  lemma StartedOutdates(m: Media, n: Media)
    requires LoadsInv(m) && n.loads.generation == m.loads.generation + 1
    requires n.loads.result == m.loads.result && n.loads.deferred == m.loads.deferred
    ensures AllStale(n.loads)
  {
  }

  /** Until then no frame starts anything, however often the focus moves: a sweep costs no load. */
  lemma UnrestedFocusWaits(m: Media, nowMs: nat, io: Io)
    requires m.ready && m.screen.focusPending && nowMs < m.screen.focusChangedMs + 180
    ensures var n := Update(m, nowMs, io);
            && n.loads.generation == m.loads.generation && n.loads.started == m.loads.started
            && n.screen.shownRoot == m.screen.shownRoot && n.screen.focusPending
            && n.screen.focusRoot == m.screen.focusRoot && n.screen.focusChangedMs == m.screen.focusChangedMs
  {
    var m1 := BeginFrame(m, nowMs);
    assert ServeFocus(m1, nowMs) == m1;
    hide BeginFrameStorage, Publish;
    ClaimingStartsNothing(PollUpload(m1, nowMs, io), nowMs, io);
  }

  lemma ApplyingStartsNothing(m: Media, res: LoadResult, nowMs: nat, starts: bool)
    ensures var n := ApplyResult(m, res, nowMs, starts);
            && n.loads.generation == m.loads.generation && n.loads.started == m.loads.started
            && n.screen == m.screen.(incomingReady := n.screen.incomingReady, readyMs := n.screen.readyMs)
  {
  }

  lemma ClaimingStartsNothing(m: Media, nowMs: nat, io: Io)
    ensures var n := ClaimResult(m, nowMs, io);
            && n.loads.generation == m.loads.generation && n.loads.started == m.loads.started
            && n.screen == m.screen.(incomingReady := n.screen.incomingReady, readyMs := n.screen.readyMs)
  {
    hide ApplyResult;
    var m1 := m.(loads := m.loads.(result := None));
    if m.loads.deferred.Some? {
      ApplyingStartsNothing(m1.(loads := m1.loads.(deferred := None)), m.loads.deferred.value, nowMs, io.deferredStarts);
    }
    if m.loads.result.Some? {
      ApplyingStartsNothing(RetryDeferred(m1, nowMs, io), m.loads.result.value, nowMs, io.resultStarts);
    }
  }

  /** And a focus that did not change, or came back to what is shown, starts nothing at any time. */
  lemma SettledFocusStartsNothing(m: Media, nowMs: nat, io: Io)
    requires m.ready && (!m.screen.focusPending || m.screen.focusRoot == m.screen.shownRoot)
    ensures var n := Update(m, nowMs, io);
            && n.loads.generation == m.loads.generation && n.loads.started == m.loads.started
            && n.screen.shownRoot == m.screen.shownRoot && n.screen.focusRoot == m.screen.focusRoot
  {
    var m1 := BeginFrame(m, nowMs);
    var m2 := ServeFocus(m1, nowMs);
    assert m2 == m1.(screen := m1.screen.(focusPending := m2.screen.focusPending));
    hide BeginFrameStorage, Publish, ServeFocus;
    ClaimingStartsNothing(PollUpload(m2, nowMs, io), nowMs, io);
  }

  /** A title chosen in the grid is served once it has rested, even if it is the one shown before a
      release. */
  lemma ChosenTitleIsServed(m: Media, root: string, chosenMs: nat, nowMs: nat, io: Io)
    requires LoadsInv(m) && m.ready && root != m.screen.focusRoot && root != m.screen.shownRoot
    requires nowMs >= chosenMs + 180
    ensures Asks(m, Update(SetFocus(m, root, chosenMs), nowMs, io), root)
  {
    FocusIsTaken(m, root, chosenMs);
    StepKeepsLoads(m, Focus(root, chosenMs));
    RestedFocusIsServed(SetFocus(m, root, chosenMs), nowMs, io);
  }

  /** Releasing the art forgets what was focused and shown, and outdates what is under way: the same
      title chosen again is asked for again, image and all. */
  lemma ReleasedArtReturns(m: Media, root: string, chosenMs: nat, nowMs: nat, io: Io)
    requires LoadsInv(m) && m.ready && root != "" && nowMs >= chosenMs + 180
    ensures var r := ReleaseBackgrounds(m);
            && !RequestCurrent(r.loads, r.loads.request) && !RequestCurrent(r.loads, r.loads.working)
            && !ResultCurrent(r.loads, r.loads.result) && !ResultCurrent(r.loads, r.loads.deferred)
            && var n := Update(SetFocus(r, root, chosenMs), nowMs, io);
               n.loads.request.Some? && n.loads.request.value.root == root && n.loads.request.value.wantBackground
  {
    hide ReleaseStorage;
    ReleaseKeepsLoads(m);
    var r := ReleaseBackgrounds(m);
    assert r.store.cache == map[] by { ReleasedCacheIsEmpty(m.store); }
    hide ReleaseBackgrounds, Update, SetFocus;
    ChosenTitleIsServed(r, root, chosenMs, nowMs, io);
  }

  lemma ReleasedCacheIsEmpty(s: Storage)
    ensures ReleaseStorage(s).cache == map[]
  {
  }

  // --- what is on its way --------------------------------------------------------------------------

  function One(b: bool): nat {
    if b then 1 else 0
  }

  function Currents(l: Loads): nat {
    One(RequestCurrent(l, l.request)) + One(RequestCurrent(l, l.working))
    + One(ResultCurrent(l, l.result)) + One(ResultCurrent(l, l.deferred))
  }

  /** At most one carrier bears the current generation. */
  predicate OneCurrent(l: Loads) {
    Currents(l) <= 1
  }

  /** Art that is ready is resident, and art that is not is still to be uploaded. */
  predicate ReadyIsResident(m: Media) {
    && (!Waiting(m.screen) && m.screen.shownRoot != "" ==> m.screen.shownRoot in m.store.cache)
    && (Waiting(m.screen) ==> m.screen.shownRoot !in m.store.cache)
  }

  /** The upload of another title cannot push the shown art out. */
  predicate ShownIsSafe(m: Media) {
    m.screen.shownRoot in m.store.cache && m.store.pending.Some? && m.store.pending.value.root != m.screen.shownRoot ==>
      |m.store.lru| < BACKGROUND_CACHE_CAPACITY || m.store.lru[0] != m.screen.shownRoot
  }

  /** While the art is waited for, its carrier carries it. */
  predicate ArtComes(m: Media) {
    Waiting(m.screen) && m.screen.shownRoot != "" ==>
      && (RequestCurrent(m.loads, m.loads.request) ==> m.loads.request.value.wantBackground)
      && (RequestCurrent(m.loads, m.loads.working) ==> m.loads.working.value.wantBackground)
      && (ResultCurrent(m.loads, m.loads.result) ==> m.loads.result.value.imageOk)
      && (ResultCurrent(m.loads, m.loads.deferred) ==> m.loads.deferred.value.imageOk)
  }

  predicate MusicCarried(l: Loads) {
    || (RequestCurrent(l, l.request) && l.request.value.wantMusic)
    || (RequestCurrent(l, l.working) && l.working.value.wantMusic)
    || (ResultCurrent(l, l.result) && l.result.value.musicOk)
  }

  predicate MusicComes(m: Media) {
    m.audio.musicOn && m.screen.shownRoot != "" ==>
      BelongsTo(m.audio.current, m.screen.shownRoot) || MusicCarried(m.loads)
  }

  predicate Delivers(m: Media) {
    OneCurrent(m.loads) && ReadyIsResident(m) && ShownIsSafe(m) && ArtComes(m) && MusicComes(m)
  }

  /** The driver does what it is asked, and the title has the assets asked for. */
  predicate Succeeds(m: Media, step: Step) {
    match step
    case Frame(_, io) => io.viewCreated && io.setAdded && io.deferredStarts && io.resultStarts
    case Post(a) =>
      m.loads.working.Some? &&
      var req := m.loads.working.value;
      req.root != "" ==> (req.wantBackground ==> a.imageOk) && (req.wantMusic ==> a.pcm != [])
    case _ => true
  }

  /** The covers leave the background layer its allowance. */
  predicate Roomy(s: Storage, others: set<nat>) {
    s.budget.capacity >= |others| + BACKGROUND_SETS
  }

  ghost predicate Sound(m: Media, others: set<nat>) {
    LoadsInv(m) && StorageInv(m.store, others) && Roomy(m.store, others)
  }

  lemma RoomForOne(s: Storage, others: set<nat>)
    requires StorageInv(s, others) && Roomy(s, others)
    ensures s.budget.HasRoom()
  {
    SixSetsAtMost(s, others);
  }

  // --- each phase delivers -------------------------------------------------------------------------

  lemma RecentlyTouchedIsSafe(s: Storage, root: string)
    requires LruMatchesCache(s) && root in s.cache
    ensures var t := TouchLru(s, root); t.cache == s.cache && (|t.lru| < BACKGROUND_CACHE_CAPACITY || t.lru[0] != root)
  {
    TouchingCachedOnlyReorders(s, root);
    TouchPartitions(s.lru, root, BACKGROUND_CACHE_CAPACITY);
  }

  /** Whatever failed before, a started load is promised anew. */
  lemma StartLoadDelivers(m: Media, root: string, nowMs: nat)
    requires LoadsInv(m) && LruMatchesCache(m.store)
    ensures Delivers(StartLoad(m, root, nowMs))
  {
    var n := StartLoad(m, root, nowMs);
    StartLoadOnlyReorders(m, root, nowMs);
    StartedScreen(m, root, nowMs);
    StartedLoadAsks(m, root, nowMs);
    StartLoadKeepsLoads(m, root, nowMs);
    if root in m.store.cache {
      RecentlyTouchedIsSafe(m.store, root);
    }
    StartedCarriers(m, root, nowMs);
    hide StartLoad, LoadsInv, LruMatchesCache;
  }

  lemma StartedCarriers(m: Media, root: string, nowMs: nat)
    requires LoadsInv(m)
    ensures var l := StartLoad(m, root, nowMs).loads;
            && OneCurrent(l)
            && !RequestCurrent(l, l.working) && !ResultCurrent(l, l.result) && !ResultCurrent(l, l.deferred)
    ensures root in m.store.cache ==> StartLoad(m, root, nowMs).store.lru == TouchLru(m.store, root).lru
  {
    hide TouchLru, FadeStateAt;
  }

  /** A published title is resident, and no other than the oldest of three leaves. */
  lemma PublishedCache(s: Storage, others: set<nat>, io: Io)
    requires StorageInv(s, others) && Roomy(s, others) && s.pending.Some? && io.viewCreated && io.setAdded
    ensures var t, root := Publish(s, io), s.pending.value.root;
            && t.pending.None?
            && root in t.cache && t.cache[root].image == s.pending.value.image
            && (forall r :: r in t.cache && r != root ==> r in s.cache && t.cache[r] == s.cache[r])
            && (forall r :: r in s.cache ==> r in t.cache || (|s.lru| == BACKGROUND_CACHE_CAPACITY && r == s.lru[0]))
  {
    RoomForOne(s, others);
    var p := s.pending.value;
    var s1 := s.(budget := s.budget.Taken());
    var full := |s.lru| == BACKGROUND_CACHE_CAPACITY;
    var oldest := if full then s.lru[0] else "";
    assert full ==> oldest in s.lru && oldest in s.cache && oldest != p.root;
    InsertFresh(s1, p.root, p.image);
    assert |s1.lru| <= BACKGROUND_CACHE_CAPACITY;
    hide LruMatchesCache, StorageInv, InsertBackground, Roomy;
    var grown := s.cache[p.root := Background(p.image)];
    assert Publish(s, io).cache == if full then grown - {oldest} else grown;
  }

  lemma PublishDelivers(m: Media, others: set<nat>, nowMs: nat, io: Io)
    requires StorageInv(m.store, others) && Roomy(m.store, others) && Delivers(m)
    requires io.viewCreated && io.setAdded
    ensures Delivers(PollUpload(m, nowMs, io))
    ensures io.fenceSignalled ==> PollUpload(m, nowMs, io).store.pending.None?
  {
    if m.store.pending.Some? && io.fenceSignalled {
      PublishedCache(m.store, others, io);
      assert LruMatchesCache(m.store);
      hide Publish, StorageInv, Roomy;
    }
  }

  lemma ApplyDelivers(m: Media, res: LoadResult, nowMs: nat)
    requires PipelineOrdered(m.loads) && ReadyIsResident(m) && ShownIsSafe(m)
    requires res.generation <= m.loads.generation && (res.imageOk ==> res.root != "")
    requires res.generation != m.loads.generation ==> Delivers(m)
    requires res.generation == m.loads.generation ==>
               && res.root == m.screen.shownRoot
               && Currents(m.loads) == 0
               && (Waiting(m.screen) && res.root != "" ==> res.imageOk)
               && (m.audio.musicOn && res.root != "" ==> BelongsTo(m.audio.current, res.root) || res.musicOk)
    ensures Delivers(ApplyResult(m, res, nowMs, true))
  {
  }

  lemma RetryDelivers(m: Media, nowMs: nat, io: Io)
    requires PipelineOrdered(m.loads) && CurrentIsShown(m.loads, m.screen.shownRoot) && Delivers(m) && io.deferredStarts
    requires m.loads.deferred.Some? ==> m.loads.deferred.value.root != ""
    ensures var n := RetryDeferred(m, nowMs, io);
            Delivers(n) && n.loads.generation == m.loads.generation && PipelineOrdered(n.loads)
  {
    if m.loads.deferred.Some? {
      var m1 := m.(loads := m.loads.(deferred := None));
      ApplyDelivers(m1, m.loads.deferred.value, nowMs);
      ApplyingKeepsOrder(m1, m.loads.deferred.value, nowMs);
      hide ApplyResult;
    }
  }

  lemma ApplyingKeepsOrder(m: Media, res: LoadResult, nowMs: nat)
    requires PipelineOrdered(m.loads) && m.loads.deferred.None? && res.generation <= m.loads.generation
    ensures var n := ApplyResult(m, res, nowMs, true); n.loads.generation == m.loads.generation && PipelineOrdered(n.loads)
  {
  }

  /** The claimed result is the current one, or the parked one is, or neither. */
  lemma ClaimDelivers(m: Media, nowMs: nat, io: Io)
    requires LoadsInv(m) && Delivers(m) && io.deferredStarts && io.resultStarts
    ensures Delivers(ClaimResult(m, nowMs, io))
  {
    var m1 := m.(loads := m.loads.(result := None));
    var m2 := RetryDeferred(m1, nowMs, io);
    if ResultCurrent(m.loads, m.loads.result) {
      if m.loads.deferred.Some? {
        StaleIsDropped(m1.(loads := m1.loads.(deferred := None)), m.loads.deferred.value, nowMs, io.deferredStarts);
      }
      hide ApplyResult;
      assert m2 == m.(loads := m2.loads) && m2.loads == m.loads.(result := None, deferred := None, discarded := m2.loads.discarded);
      ApplyDelivers(m2, m.loads.result.value, nowMs);
    } else {
      hide ApplyResult;
      assert Delivers(m1) && PipelineOrdered(m1.loads);
      RetryDelivers(m1, nowMs, io);
      if m.loads.result.Some? {
        ApplyDelivers(m2, m.loads.result.value, nowMs);
      }
    }
  }

  lemma FinishDelivers(m: Media, nowMs: nat)
    requires Delivers(m)
    ensures Delivers(FinishTransition(m, nowMs))
  {
  }

  // --- every good step delivers --------------------------------------------------------------------

  lemma ServingDelivers(m: Media, others: set<nat>, nowMs: nat)
    requires Sound(m, others) && Delivers(m)
    ensures var n := ServeFocus(BeginFrame(m, nowMs), nowMs);
            Delivers(n) && LoadsInv(n) && StorageInv(n.store, others) && Roomy(n.store, others)
  {
    var m1 := BeginFrame(m, nowMs);
    BeginFrameKeepsInv(m.store, others);
    BeginFrameKeepsLoads(m, nowMs);
    BeginFrameDelivers(m, nowMs);
    ServingOnlyReorders(m1, others, nowMs);
    hide BeginFrameStorage, StorageInv, LoadsInv, StartLoad, Delivers;
    if LoadDue(m1.screen, nowMs) && m1.screen.focusRoot != m1.screen.shownRoot {
      var m2 := m1.(screen := m1.screen.(focusPending := false));
      StartLoadKeepsLoads(m2, m1.screen.focusRoot, nowMs);
      assert LruMatchesCache(m2.store) by { StorageHasLru(m1.store, others); }
      StartLoadDelivers(m2, m1.screen.focusRoot, nowMs);
    } else {
      UnpendingDelivers(m1);
    }
  }

  lemma StorageHasLru(s: Storage, others: set<nat>)
    requires StorageInv(s, others)
    ensures LruMatchesCache(s)
  {
  }

  lemma UnpendingDelivers(m: Media)
    requires Delivers(m)
    ensures Delivers(m.(screen := m.screen.(focusPending := false)))
  {
  }

  lemma BeginFrameDelivers(m: Media, nowMs: nat)
    requires Delivers(m)
    ensures Delivers(BeginFrame(m, nowMs)) && BeginFrame(m, nowMs).store.budget.capacity == m.store.budget.capacity
  {
  }

  lemma FrameDelivers(m: Media, others: set<nat>, nowMs: nat, io: Io)
    requires Sound(m, others) && Delivers(m) && Succeeds(m, Frame(nowMs, io))
    ensures Delivers(Update(m, nowMs, io))
  {
    if m.ready {
      var m1 := ServeFocus(BeginFrame(m, nowMs), nowMs);
      ServingDelivers(m, others, nowMs);
      PublishDelivers(m1, others, nowMs, io);
      PollUploadKeepsLoads(m1, nowMs, io);
      var m2 := PollUpload(m1, nowMs, io);
      hide Sound, StorageInv, LoadsInv, Delivers, ServeFocus, PollUpload, BeginFrame;
      ClaimDelivers(m2, nowMs, io);
      FinishDelivers(ClaimResult(m2, nowMs, io), nowMs);
    }
  }

  lemma MusicDelivers(m: Media, on: bool, opens: bool)
    requires LoadsInv(m) && Delivers(m)
    ensures Delivers(SetMusicEnabled(m, on, opens))
  {
  }

  lemma ReleaseDelivers(m: Media, others: set<nat>)
    requires LoadsInv(m) && StorageInv(m.store, others)
    ensures Delivers(ReleaseBackgrounds(m)) && Currents(ReleaseBackgrounds(m).loads) == 0
  {
    ReleaseDestroysAll(m.store, others);
    hide ReleaseStorage, StorageInv;
  }

  lemma WorkerDelivers(m: Media, a: LoadAnswer)
    requires LoadsInv(m) && Delivers(m)
    ensures Enabled(m, Take) ==> Delivers(WorkerTake(m))
    ensures Enabled(m, Post(a)) && Succeeds(m, Post(a)) ==> Delivers(WorkerPost(m, a))
  {
  }

  lemma StepDelivers(m: Media, others: set<nat>, step: Step)
    requires Sound(m, others) && Delivers(m) && Enabled(m, step) && Succeeds(m, step)
    ensures Delivers(Next(m, step)) && Sound(Next(m, step), others)
  {
    StepKeepsLoads(m, step);
    StepKeepsStorage(m, others, step);
    StepKeepsRoom(m, step);
    match step
    case Focus(_, _) =>
    case Frame(nowMs, io) => FrameDelivers(m, others, nowMs, io);
    case Music(on, opens) => MusicDelivers(m, on, opens);
    case Release => ReleaseDelivers(m, others);
    case Take => WorkerDelivers(m, LoadAnswer(false, []));
    case Post(a) => WorkerDelivers(m, a);
  }

  lemma StepKeepsRoom(m: Media, step: Step)
    requires Enabled(m, step)
    ensures Next(m, step).store.budget.capacity == m.store.budget.capacity
  {
    match step
    case Frame(nowMs, io) => CapacityUntouched(m, nowMs, io);
    case _ =>
  }

  // --- every good run delivers ---------------------------------------------------------------------

  ghost predicate GoodRun(m: Media, steps: seq<Step>)
    decreases |steps|
  {
    steps == [] || (Enabled(m, steps[0]) && Succeeds(m, steps[0]) && GoodRun(Next(m, steps[0]), steps[1..]))
  }

  ghost function Ran(m: Media, steps: seq<Step>): Media
    requires GoodRun(m, steps)
    decreases |steps|
  {
    if steps == [] then m else Ran(Next(m, steps[0]), steps[1..])
  }

  lemma {:induction false} RunDelivers(m: Media, others: set<nat>, steps: seq<Step>)
    requires Sound(m, others) && Delivers(m) && GoodRun(m, steps)
    ensures Sound(Ran(m, steps), others) && Delivers(Ran(m, steps))
    decreases |steps|
  {
    if steps != [] {
      StepDelivers(m, others, steps[0]);
      hide Sound, Delivers;
      RunDelivers(Next(m, steps[0]), others, steps[1..]);
    }
  }

  /** Nothing is under way. */
  predicate Idle(m: Media) {
    && m.loads.request.None? && m.loads.working.None? && m.loads.result.None? && m.loads.deferred.None?
    && m.store.pending.None?
  }

  /** The shown title's art is resident and ready, and its music plays if music is on. */
  predicate Delivered(m: Media) {
    && m.screen.incomingReady
    && (m.screen.shownRoot != "" ==> m.screen.shownRoot in m.store.cache)
    && (m.audio.musicOn && m.screen.shownRoot != "" ==> BelongsTo(m.audio.current, m.screen.shownRoot))
  }

  lemma IdleIsDelivered(m: Media)
    requires LoadsInv(m) && Delivers(m) && Idle(m)
    ensures Delivered(m)
  {
  }

  /** From start-up, over any focus changes, toggles, releases and interleavings, as long as titles have
      their assets and the driver does its part: whenever nothing is under way, everything was delivered;
      and whatever is shown as ready is resident, also while other loads are under way. */
  lemma EveryGoodRunDelivers(musicOn: bool, capacity: nat, steps: seq<Step>)
    requires capacity >= BACKGROUND_SETS && GoodRun(Fresh(musicOn, Count(capacity, 0)), steps)
    ensures var m := Ran(Fresh(musicOn, Count(capacity, 0)), steps);
            && (Idle(m) ==> Delivered(m))
            && (m.screen.incomingReady && m.screen.shownRoot != "" ==> m.screen.shownRoot in m.store.cache)
  {
    var m0 := Fresh(musicOn, Count(capacity, 0));
    FreshDelivers(musicOn, capacity);
    RunDelivers(m0, {}, steps);
    DeliveringMeans(Ran(m0, steps), {});
  }

  lemma FreshDelivers(musicOn: bool, capacity: nat)
    requires capacity >= BACKGROUND_SETS
    ensures var m := Fresh(musicOn, Count(capacity, 0)); Sound(m, {}) && Delivers(m)
  {
    var m := Fresh(musicOn, Count(capacity, 0));
    assert CachedImages(m.store.cache) == {} && RetiredImages(m.store.retired) == {};
  }

  lemma DeliveringMeans(m: Media, others: set<nat>)
    requires Sound(m, others) && Delivers(m)
    ensures Idle(m) ==> Delivered(m)
    ensures m.screen.incomingReady && m.screen.shownRoot != "" ==> m.screen.shownRoot in m.store.cache
  {
    if Idle(m) {
      IdleIsDelivered(m);
    }
  }

  // --- and everything can be delivered -------------------------------------------------------------

  predicate Resting(m: Media) {
    m.ready && !m.screen.focusPending
  }

  predicate SameShow(m: Media, n: Media) {
    n.screen.shownRoot == m.screen.shownRoot && n.audio.musicOn == m.audio.musicOn
  }

  function GoodAnswer(req: LoadRequest): LoadAnswer {
    LoadAnswer(req.wantBackground && req.root != "", if req.wantMusic && req.root != "" then [0] else [])
  }

  lemma ApplyingSparesTheRest(m: Media, res: LoadResult, nowMs: nat, starts: bool)
    ensures var n := ApplyResult(m, res, nowMs, starts);
            n.loads.request == m.loads.request && n.loads.working == m.loads.working && n.loads.result == m.loads.result
            && SameShow(m, n) && n.ready == m.ready
    ensures var n := ApplyResult(m, res, nowMs, starts);
            m.store.pending.None? || res.generation != m.loads.generation ==> n.loads.deferred == m.loads.deferred
    ensures res.generation != m.loads.generation ==> ApplyResult(m, res, nowMs, starts).store == m.store
  {
  }

  lemma ClaimingEmpties(m: Media, nowMs: nat, io: Io)
    requires OneCurrent(m.loads) && m.store.pending.None?
    ensures var n := ClaimResult(m, nowMs, io);
            && n.loads.result.None? && n.loads.deferred.None?
            && n.loads.request == m.loads.request && n.loads.working == m.loads.working
            && SameShow(m, n) && n.ready == m.ready
            && (m.loads.result.None? && m.loads.deferred.None? ==> n.store.pending.None?)
  {
    var m1 := m.(loads := m.loads.(result := None));
    var m2 := RetryDeferred(m1, nowMs, io);
    if m.loads.deferred.Some? {
      ApplyingSparesTheRest(m1.(loads := m1.loads.(deferred := None)), m.loads.deferred.value, nowMs, io.deferredStarts);
      ApplyingStartsNothing(m1.(loads := m1.loads.(deferred := None)), m.loads.deferred.value, nowMs, io.deferredStarts);
    }
    hide ApplyResult;
    if m.loads.result.Some? {
      ApplyingSparesTheRest(m2, m.loads.result.value, nowMs, io.resultStarts);
    }
  }

  /** A frame with the worker at rest takes in what there is; a second one finishes the upload. */
  lemma FrameTakesIn(m: Media, others: set<nat>, nowMs: nat)
    requires Sound(m, others) && Delivers(m) && Resting(m) && m.loads.request.None? && m.loads.working.None?
    ensures var n := Update(m, nowMs, FenceSignals());
            && Resting(n) && SameShow(m, n)
            && n.loads.request.None? && n.loads.working.None? && n.loads.result.None? && n.loads.deferred.None?
            && (m.loads.result.None? && m.loads.deferred.None? ==> Idle(n))
  {
    var io := FenceSignals();
    ServingDelivers(m, others, nowMs);
    var m1 := BeginFrame(m, nowMs);
    assert ServeFocus(m1, nowMs) == m1;
    PublishDelivers(m1, others, nowMs, io);
    PollingAndFinishingKeepAsking(m1, nowMs, io);
    var m2 := PollUpload(m1, nowMs, io);
    hide Sound, StorageInv, LoadsInv, BeginFrameStorage, PollUpload, ClaimResult;
    ClaimingEmpties(m2, nowMs, io);
    ClaimingStartsNothing(m2, nowMs, io);
    PollingAndFinishingKeepAsking(ClaimResult(m2, nowMs, io), nowMs, io);
  }

  lemma PrependGood(m: Media, step: Step, steps: seq<Step>)
    requires Enabled(m, step) && Succeeds(m, step) && GoodRun(Next(m, step), steps)
    ensures GoodRun(m, [step] + steps) && Ran(m, [step] + steps) == Ran(Next(m, step), steps)
  {
    assert ([step] + steps)[1..] == steps;
  }

  /** With nothing left for the worker, two frames. */
  lemma FramesDeliver(m: Media, others: set<nat>, nowMs: nat) returns (steps: seq<Step>)
    requires Sound(m, others) && Delivers(m) && Resting(m) && m.loads.request.None? && m.loads.working.None?
    ensures GoodRun(m, steps) && |steps| == 2
    ensures var n := Ran(m, steps); Sound(n, others) && Delivers(n) && Resting(n) && Idle(n) && SameShow(m, n)
  {
    var step := Frame(nowMs, FenceSignals());
    var m1 := Next(m, step);
    FrameTakesIn(m, others, nowMs);
    StepDelivers(m, others, step);
    FrameTakesIn(m1, others, nowMs);
    StepDelivers(m1, others, step);
    hide Sound, Delivers, Update;
    PrependGood(m1, step, []);
    PrependGood(m, step, [step] + []);
    steps := [step] + ([step] + []);
  }

  lemma PostingIsGood(m: Media, others: set<nat>)
    requires Sound(m, others) && Delivers(m) && Resting(m) && m.loads.working.Some?
    ensures var step := Post(GoodAnswer(m.loads.working.value));
            Enabled(m, step) && Succeeds(m, step) && Sound(Next(m, step), others) && Delivers(Next(m, step))
  {
    StepDelivers(m, others, Post(GoodAnswer(m.loads.working.value)));
  }

  lemma AnswersDeliver(m: Media, others: set<nat>, nowMs: nat) returns (steps: seq<Step>)
    requires Sound(m, others) && Delivers(m) && Resting(m) && m.loads.request.None?
    ensures GoodRun(m, steps) && |steps| <= 3
    ensures var n := Ran(m, steps); Sound(n, others) && Delivers(n) && Resting(n) && Idle(n) && SameShow(m, n)
  {
    if m.loads.working.None? {
      steps := FramesDeliver(m, others, nowMs);
    } else {
      var step := Post(GoodAnswer(m.loads.working.value));
      PostingIsGood(m, others);
      var more := FramesDeliver(Next(m, step), others, nowMs);
      hide Sound, Delivers;
      PrependGood(m, step, more);
      steps := [step] + more;
    }
  }

  /** From any promising state at most five good steps deliver the shown title. */
  lemma CanBeDelivered(m: Media, others: set<nat>, nowMs: nat) returns (steps: seq<Step>)
    requires Sound(m, others) && Delivers(m) && Resting(m)
    ensures GoodRun(m, steps) && |steps| <= 5
    ensures var n := Ran(m, steps);
            Sound(n, others) && Delivers(n) && Resting(n) && Idle(n) && SameShow(m, n) && Delivered(n)
  {
    if m.loads.request.None? {
      steps := AnswersDeliver(m, others, nowMs);
    } else if m.loads.working.None? {
      steps := TakeAndDeliver(m, others, nowMs);
    } else {
      var step := Post(GoodAnswer(m.loads.working.value));
      PostingIsGood(m, others);
      var more := TakeAndDeliver(Next(m, step), others, nowMs);
      hide Sound, Delivers;
      PrependGood(m, step, more);
      steps := [step] + more;
    }
    IdleIsDelivered(Ran(m, steps));
  }

  lemma TakeAndDeliver(m: Media, others: set<nat>, nowMs: nat) returns (steps: seq<Step>)
    requires Sound(m, others) && Delivers(m) && Resting(m) && m.loads.request.Some? && m.loads.working.None?
    ensures GoodRun(m, steps) && |steps| <= 4
    ensures var n := Ran(m, steps); Sound(n, others) && Delivers(n) && Resting(n) && Idle(n) && SameShow(m, n)
  {
    StepDelivers(m, others, Take);
    var more := AnswersDeliver(Next(m, Take), others, nowMs);
    hide Sound, Delivers;
    PrependGood(m, Take, more);
    steps := [Take] + more;
  }

  /** Once delivered and past both fades, the next frame shows the title's art in full. */
  lemma DeliveredIsShown(m: Media, nowMs: nat, io: Io)
    requires Resting(m) && Idle(m) && Delivered(m) && m.screen.shownRoot != ""
    requires nowMs >= m.screen.transitionMs + 450 && nowMs >= m.screen.readyMs + 250
    ensures var n := Update(m, nowMs, io);
            && m.screen.shownRoot in n.store.cache
            && BackdropOf(n) == Shows(m.screen.shownRoot, n.store.cache[m.screen.shownRoot].image, 1.0)
            && n.audio.current == m.audio.current && n.screen.shownRoot == m.screen.shownRoot
  {
    var m1 := BeginFrame(m, nowMs);
    assert ServeFocus(m1, nowMs) == m1 && PollUpload(m1, nowMs, io) == m1 && ClaimResult(m1, nowMs, io) == m1;
    hide Kept, ExpiredImages;
    assert Update(m, nowMs, io) == FinishTransition(m1, nowMs);
    assert m1.screen.transitionActive ==> FadeNow(m1.screen, nowMs).done;
  }

  /** The whole way, from any reachable state: a focus that has rested, one frame that serves it, at most
      five steps that deliver, and a frame past the fades. The title's art is on screen in full, and its
      music is the track playing. */
  lemma RestedFocusIsShown(m: Media, others: set<nat>, nowMs: nat, laterMs: nat) returns (steps: seq<Step>)
    requires Sound(m, others) && m.ready && m.screen.focusRoot != ""
    requires m.screen.focusPending && nowMs >= m.screen.focusChangedMs + 180 && m.screen.focusRoot != m.screen.shownRoot
    ensures |steps| <= 6 && GoodRun(m, steps)
    ensures var root, n := m.screen.focusRoot, Ran(m, steps);
            && n.screen.shownRoot == root
            && (laterMs >= n.screen.transitionMs + 450 && laterMs >= n.screen.readyMs + 250 ==>
                  var shown := Update(n, laterMs, FenceSignals());
                  && root in shown.store.cache
                  && BackdropOf(shown) == Shows(root, shown.store.cache[root].image, 1.0)
                  && (m.audio.musicOn ==> BelongsTo(shown.audio.current, root)))
  {
    var step := Frame(nowMs, FenceSignals());
    RestedFocusIsServed(m, nowMs, FenceSignals());
    ServedDelivers(m, others, nowMs);
    var more := CanBeDelivered(Next(m, step), others, nowMs);
    var n := Ran(Next(m, step), more);
    hide Sound, Delivers;
    PrependGood(m, step, more);
    steps := [step] + more;
    if laterMs >= n.screen.transitionMs + 450 && laterMs >= n.screen.readyMs + 250 {
      DeliveredIsShown(n, laterMs, FenceSignals());
    }
  }

  /** The serving frame itself makes good what an earlier failure may have left. */
  lemma ServedDelivers(m: Media, others: set<nat>, nowMs: nat)
    requires Sound(m, others) && m.ready
    requires m.screen.focusPending && nowMs >= m.screen.focusChangedMs + 180 && m.screen.focusRoot != m.screen.shownRoot
    ensures var n := Update(m, nowMs, FenceSignals()); Sound(n, others) && Delivers(n)
  {
    var io := FenceSignals();
    StepKeepsLoads(m, Frame(nowMs, io));
    StepKeepsStorage(m, others, Frame(nowMs, io));
    StepKeepsRoom(m, Frame(nowMs, io));
    var m1 := BeginFrame(m, nowMs);
    BeginFrameKeepsInv(m.store, others);
    BeginFrameKeepsLoads(m, nowMs);
    var m2 := m1.(screen := m1.screen.(focusPending := false));
    StartLoadDelivers(m2, m1.screen.focusRoot, nowMs);
    StartLoadKeepsLoads(m2, m1.screen.focusRoot, nowMs);
    ServingOnlyReorders(m1, others, nowMs);
    var m3 := ServeFocus(m1, nowMs);
    assert m3 == StartLoad(m2, m1.screen.focusRoot, nowMs);
    assert Roomy(m3.store, others);
    hide StartLoad, ServeFocus, BeginFrameStorage;
    PublishDelivers(m3, others, nowMs, io);
    PollUploadKeepsLoads(m3, nowMs, io);
    var m4 := PollUpload(m3, nowMs, io);
    ClaimDelivers(m4, nowMs, io);
    FinishDelivers(ClaimResult(m4, nowMs, io), nowMs);
    hide Delivers, LoadsInv, StorageInv, PollUpload, ClaimResult;
    assert Update(m, nowMs, io) == FinishTransition(ClaimResult(m4, nowMs, io), nowMs);
  }
}

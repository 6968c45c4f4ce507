/** library_media.cpp in its own form: one object whose methods update its fields in place, each proved
    to take the step the value model names, so everything proved about those steps holds of it. */
module MediaRuntime {
  import opened Wrappers
  import opened LaunchPolicy
  import opened DescriptorBudget
  import opened MediaState

  /** Image creation and destruction, recorded. */
  class Driver {
    var nextImage: nat
    var destroyed: set<nat>

    constructor ()
      ensures View() == Gpu(0, {})
    {
      nextImage, destroyed := 0, {};
    }

    function View(): Gpu
      reads this
    {
      Gpu(nextImage, destroyed)
    }

    method Create() returns (image: nat)
      modifies this
      ensures image == old(nextImage) && View() == old(View()).(nextImage := old(nextImage) + 1)
    {
      image := nextImage;
      nextImage := nextImage + 1;
    }

    method Destroy(image: nat)
      modifies this
      ensures View() == Destroyed(old(View()), {image})
    {
      destroyed := destroyed + {image};
    }
  }

  datatype UploadStart = Started | Busy | Failed

  class LibraryMedia {
    const budget: Budget
    const driver: Driver

    var ready: bool

    var cache: map<string, Background>
    var lru: seq<string>
    var retired: seq<Retired>
    var frameCounter: nat
    var pending: Option<PendingUpload>

    var screen: Screen   // focus and transition fields
    var audio: Audio     // stream state and the three tracks
    var loads: Loads     // mailboxes, the worker's request, the parked result, generations

    /** A runtime that has just been initialised. */
    constructor (budget: Budget, driver: Driver, deviceOpens: bool)
      requires driver.View() == Gpu(0, {})
      ensures this.budget == budget && this.driver == driver
      ensures View() == Fresh(deviceOpens, budget.View())
    {
      this.budget, this.driver := budget, driver;
      ready := true;
      cache, lru, retired, frameCounter, pending := map[], [], [], 0, None;
      screen := Screen("", 0, false, "", "", 0, 0, true, false, 0);
      audio := Audio(deviceOpens, deviceOpens, None, None, None);
      loads := Loads(None, None, None, None, 0, 0, 0);
    }

    function StoreView(): Storage
      reads this, budget, driver
    {
      Storage(cache, lru, retired, frameCounter, pending, budget.View(), driver.View())
    }

    function View(): Media
      reads this, budget, driver
    {
      Media(ready, StoreView(), screen, audio, loads)
    }

    // --- storage -----------------------------------------------------------------------------------

    method RetireEvicted(gone: seq<string>)
      modifies this`cache, this`retired
      ensures StoreView() == MediaState.RetireEvicted(old(StoreView()), gone)
    {
      var i := 0;
      assert gone[0..] == gone;
      while i < |gone|
        invariant i <= |gone|
        invariant StoreView() == old(StoreView()).(cache := cache, retired := retired)
        invariant MediaState.RetireEvicted(StoreView(), gone[i..]) == MediaState.RetireEvicted(old(StoreView()), gone)
      {
        assert gone[i..][0] == gone[i] && gone[i..][1..] == gone[i + 1..];
        if gone[i] in cache {
          retired := retired + [Retired(cache[gone[i]].image, frameCounter)];
          cache := cache - {gone[i]};
        }
        i := i + 1;
      }
    }

    method TouchLru(root: string)
      modifies this`cache, this`retired, this`lru
      ensures StoreView() == MediaState.TouchLru(old(StoreView()), root)
    {
      var gone;
      lru, gone := LruTouchInPlace(lru, root, BACKGROUND_CACHE_CAPACITY);
      RetireEvicted(gone);
    }

    method InsertBackground(root: string, image: nat)
      modifies this`cache, this`retired, this`lru
      ensures StoreView() == MediaState.InsertBackground(old(StoreView()), root, image)
    {
      if root in cache {
        retired := retired + [Retired(cache[root].image, frameCounter)];
        cache := cache - {root};
      }
      cache := cache[root := Background(image)];
      TouchLru(root);
    }

    /** A published background gives its set back; an upload in flight has none yet. */
    method DestroyBackground(image: nat, hasSet: bool)
      modifies budget, driver
      ensures budget.View() == if hasSet then old(budget.View()).Released(1) else old(budget.View())
      ensures driver.View() == Destroyed(old(driver.View()), {image})
    {
      if hasSet {
        budget.Release();
      }
      driver.Destroy(image);
    }

    method CollectRetired(force: bool)
      modifies this`retired, budget, driver
      ensures StoreView() == MediaState.CollectRetired(old(StoreView()), force)
    {
      ghost var was, count, gpu := retired, budget.View(), driver.View();
      ghost var n := 0;
      var i := 0;
      assert retired[0..] == retired;
      while i < |retired|
        invariant i <= |retired| && n + |retired| == |was|
        invariant retired[..i] + Kept(retired[i..], frameCounter, force) == Kept(was, frameCounter, force)
        invariant ExpiredImages(was, frameCounter, force) + gpu.destroyed
               == ExpiredImages(retired[i..], frameCounter, force) + driver.destroyed
        invariant budget.View() == count.Released(n) && driver.nextImage == gpu.nextImage
        decreases |retired| - i
      {
        hide Kept, ExpiredImages;
        CollectOne(retired, i, frameCounter, force);
        if force || frameCounter - retired[i].frame >= RETIRE_FRAMES {
          DestroyBackground(retired[i].image, true);
          retired := retired[..i] + retired[i + 1..];
          n := n + 1;
        } else {
          i := i + 1;
        }
      }
      assert retired[..i] == retired && retired[i..] == [];
    }

    method DestroyAllBackgrounds()
      modifies this`cache, this`lru, budget, driver
      ensures StoreView() == MediaState.DestroyAllBackgrounds(old(StoreView()))
    {
      ghost var count, gpu := budget.View(), driver.View();
      var todo := cache.Keys;
      ghost var n, images := 0, {};
      while todo != {}
        invariant todo <= cache.Keys && n + |todo| == |cache|
        invariant images == ImagesOf(cache, cache.Keys - todo)
        invariant budget.View() == count.Released(n)
        invariant driver.View() == Destroyed(gpu, images)
        modifies budget, driver
        decreases |todo|
      {
        var root :| root in todo;
        OneMoreImage(cache, todo, root);
        DestroyBackground(cache[root].image, true);
        images := images + {cache[root].image};
        todo := todo - {root};
        n := n + 1;
      }
      assert images == CachedImages(cache);
      cache, lru := map[], [];
    }

    ghost function ImagesOf(cache: map<string, Background>, roots: set<string>): set<nat>
      requires roots <= cache.Keys
    {
      set r | r in roots :: cache[r].image
    }

    lemma OneMoreImage(cache: map<string, Background>, todo: set<string>, root: string)
      requires root in todo && todo <= cache.Keys
      ensures ImagesOf(cache, cache.Keys - (todo - {root})) == ImagesOf(cache, cache.Keys - todo) + {cache[root].image}
    {
      assert cache.Keys - (todo - {root}) == (cache.Keys - todo) + {root};
    }

    method DropUpload()
      modifies this`pending, budget, driver
      ensures StoreView() == DropPending(old(StoreView()))
    {
      if pending.Some? {
        DestroyBackground(pending.value.image, false);
      }
      pending := None;
    }

    method ReleaseObjects()
      modifies this`cache, this`lru, this`retired, this`pending, budget, driver
      ensures StoreView() == ReleaseStorage(old(StoreView()))
    {
      hide MediaState.CollectRetired, MediaState.DestroyAllBackgrounds;
      DropUpload();
      CollectRetired(true);
      DestroyAllBackgrounds();
    }

    method ReleaseBackgrounds()
      modifies this`cache, this`lru, this`retired, this`pending, this`screen, this`loads, budget, driver
      ensures View() == MediaState.ReleaseBackgrounds(old(View()))
    {
      hide ReleaseStorage;
      ReleaseObjects();
      screen := screen.(focusRoot := "", focusPending := false, shownRoot := "", outgoingRoot := "",
                        transitionActive := false, incomingReady := true);
      loads := loads.(deferred := None, generation := loads.generation + 1);
    }

    // --- focus and loads ---------------------------------------------------------------------------

    method SetFocus(root: string, nowMs: nat)
      modifies this`screen
      ensures View() == MediaState.SetFocus(old(View()), root, nowMs)
    {
      if !ready || root == screen.focusRoot {
        return;
      }
      screen := screen.(focusRoot := root, focusChangedMs := nowMs, focusPending := true);
    }

    method PostRequest(req: LoadRequest)
      modifies this`loads
      ensures loads == old(loads).(request := Some(req))
    {
      loads := loads.(request := Some(req));
    }

    method Reverse(root: string, nowMs: nat)
      requires Reverses(View(), root, nowMs)
      modifies this`cache, this`lru, this`retired, this`screen, this`audio, this`loads
      ensures View() == Reversed(old(View()), root, nowMs)
    {
      hide MediaState.TouchLru;
      TakeBackTrack(root);
      BackdateFadeIn(root, nowMs);
      TouchLru(root);
      if !audio.musicOn || audio.current.Some? {
        return;
      }
      PostRequest(LoadRequest(loads.generation, root, true, false));
    }

    /** The track side of a reversal: the current one is dropped first, whatever it is. */
    method TakeBackTrack(root: string)
      modifies this`audio
      ensures var track := if old(audio).musicOn && BelongsTo(old(audio).outgoing, root) then old(audio).outgoing else None;
              audio == old(audio).(current := track, outgoing := None)
    {
      var track := None;
      if audio.musicOn && BelongsTo(audio.outgoing, root) {
        track := audio.outgoing;
      }
      audio := audio.(current := track, outgoing := None);
    }

    method BackdateFadeIn(root: string, nowMs: nat)
      modifies this`screen
      ensures screen == ReversedScreen(old(screen), root, nowMs)
    {
      var s := FadeNow(screen, nowMs);
      var back := if s.oldAlpha > 1.0 then 1.0 else s.oldAlpha;
      var intoFadeIn := TruncatedMs(back, FADE_IN_MS);
      var inStart := Before(nowMs, intoFadeIn);
      var transition := Before(inStart, FADE_OUT_MS);
      screen := screen.(transitionMs := transition, readyMs := transition + FADE_OUT_MS,
                        incomingReady := true, transitionActive := true,
                        shownRoot := root, outgoingRoot := "");
    }

    /** The track side of an interruption: what was audible leaves, what is held for `root` resumes. */
    method HandOverTracks(outgoingShows: bool, root: string) returns (haveTrack: bool)
      modifies this`audio
      ensures audio == CrossFadedAudio(old(audio), if outgoingShows then old(audio).outgoing else old(audio).current, root)
      ensures audio.musicOn ==> haveTrack == audio.current.Some?
    {
      var a := audio;
      if !outgoingShows {
        a := a.(outgoing := a.current);
      }
      a := a.(current := None);
      haveTrack := false;
      if a.musicOn && BelongsTo(a.outgoing, root) {
        a := a.(current := a.outgoing, outgoing := None);
        haveTrack := true;
      } else if a.musicOn && BelongsTo(a.recent, root) {
        a := a.(current := a.recent, recent := None);
        haveTrack := true;
      }
      audio := a;
    }

    /** The picture's side of it: what shows fades out from the opacity it has. */
    method BackdateFadeOut(root: string, nowMs: nat, cached: bool) returns (outgoingShows: bool)
      modifies this`screen
      ensures outgoingShows == OutgoingShows(old(screen), nowMs)
      ensures screen == CrossFadedScreen(old(screen), root, nowMs, cached)
    {
      var v := screen;
      var visible := 1.0;
      outgoingShows := false;
      if v.transitionActive {
        var s := FadeNow(v, nowMs);
        outgoingShows := s.oldAlpha > 0.0;
        visible := if outgoingShows then s.oldAlpha else s.newAlpha;
      }
      if !outgoingShows {
        v := v.(outgoingRoot := v.shownRoot);
      }
      var transition := Before(nowMs, TruncatedMs(1.0 - Clamped(visible), FADE_OUT_MS));
      v := v.(transitionMs := transition, transitionActive := true, incomingReady := false, shownRoot := root);
      if cached {
        v := v.(incomingReady := true, readyMs := transition + FADE_OUT_MS);
      }
      screen := v;
    }

    method CrossFade(root: string, nowMs: nat)
      modifies this`cache, this`lru, this`retired, this`screen, this`audio, this`loads
      ensures View() == CrossFaded(old(View()), root, nowMs)
    {
      hide MediaState.TouchLru, CrossFadedScreen;
      var cached := root in cache;
      var outgoingShows := BackdateFadeOut(root, nowMs, cached);
      var haveTrack := HandOverTracks(outgoingShows, root);
      if cached {
        TouchLru(root);
      }
      var wantMusic := audio.musicOn && !haveTrack;
      if cached && !wantMusic {
        return;
      }
      PostRequest(LoadRequest(loads.generation, root, wantMusic, !cached));
    }

    method StartLoad(root: string, nowMs: nat)
      modifies this`cache, this`lru, this`retired, this`screen, this`audio, this`loads
      ensures View() == MediaState.StartLoad(old(View()), root, nowMs)
    {
      loads := loads.(generation := loads.generation + 1, started := loads.started + 1);
      var reverses := false;
      var v := screen;
      if v.transitionActive && nowMs >= FADE_OUT_MS + FADE_IN_MS && v.outgoingRoot != "" && v.outgoingRoot == root && root in cache {
        reverses := FadeNow(v, nowMs).oldAlpha > 0.0;
      }
      if reverses {
        Reverse(root, nowMs);
      } else {
        CrossFade(root, nowMs);
      }
    }

    method SetMusicEnabled(on: bool, deviceOpens: bool)
      modifies this`audio, this`loads
      ensures View() == MediaState.SetMusicEnabled(old(View()), on, deviceOpens)
    {
      if !ready || on == audio.musicOn {
        return;
      }
      if !on {
        audio := audio.(musicOn := false, current := None, outgoing := None, recent := None);
        return;
      }
      var open := audio.streamOpen || deviceOpens;
      audio := audio.(streamOpen := open, musicOn := open);
      if !open || screen.shownRoot == "" {
        return;
      }
      loads := loads.(generation := loads.generation + 1, started := loads.started + 1);
      PostRequest(LoadRequest(loads.generation, screen.shownRoot, true, screen.shownRoot !in cache));
    }

    // --- worker ------------------------------------------------------------------------------------

    method WorkerTake()
      requires loads.request.Some? && loads.working.None?
      modifies this`loads
      ensures View() == MediaState.WorkerTake(old(View()))
    {
      loads := loads.(working := loads.request, request := None);
    }

    method WorkerPost(a: LoadAnswer)
      requires loads.working.Some? && CanAnswer(loads.working.value, a)
      modifies this`loads
      ensures View() == MediaState.WorkerPost(old(View()), a)
    {
      var req := loads.working.value;
      loads := loads.(working := None,
                      result := Some(LoadResult(req.generation, req.root, a.imageOk, a.pcm != [], a.pcm)));
    }

    // --- results and uploads -----------------------------------------------------------------------

    method MarkIncomingReady(nowMs: nat)
      modifies this`screen
      ensures screen == MediaState.MarkIncomingReady(old(screen), nowMs)
    {
      if screen.incomingReady {
        return;
      }
      screen := screen.(incomingReady := true, readyMs := nowMs);
    }

    method InstallTrack(res: LoadResult) returns (left: LoadResult)
      modifies this`audio
      ensures audio == MediaState.InstallTrack(old(audio), res)
      ensures left == AfterInstall(old(audio), res)
    {
      left := res;
      if !audio.musicOn || !res.musicOk || BelongsTo(audio.current, res.root) {
        return;
      }
      audio := audio.(current := Some(Track(res.root, res.pcm)));
      left := res.(pcm := []);
    }

    method StartUpload(root: string, submits: bool) returns (r: UploadStart)
      modifies this`pending, driver
      ensures r == if old(pending).Some? then Busy else if submits then Started else Failed
      ensures StoreView() == if r == Started then BeginUpload(old(StoreView()), root) else old(StoreView())
    {
      if pending.Some? {
        return Busy;
      }
      if !submits {
        return Failed;
      }
      var image := driver.Create();
      pending := Some(PendingUpload(root, image));
      return Started;
    }

    method ApplyResult(res: LoadResult, nowMs: nat, uploadStarts: bool)
      modifies this`pending, this`screen, this`audio, this`loads, driver
      ensures View() == MediaState.ApplyResult(old(View()), res, nowMs, uploadStarts)
    {
      if res.generation != loads.generation {
        loads := loads.(discarded := loads.discarded + 1);
        return;
      }
      var left := InstallTrack(res);
      if res.imageOk && res.root !in cache {
        var r := StartUpload(res.root, uploadStarts);
        if r == Busy {
          loads := loads.(deferred := Some(left));
          return;
        }
        if r == Failed {
          MarkIncomingReady(nowMs);
        }
        return;
      }
      MarkIncomingReady(nowMs);
    }

    method ClaimResult(nowMs: nat, io: Io)
      modifies this`pending, this`screen, this`audio, this`loads, driver
      ensures View() == MediaState.ClaimResult(old(View()), nowMs, io)
    {
      var res := loads.result;
      loads := loads.(result := None);
      if loads.deferred.Some? {
        var d := loads.deferred.value;
        loads := loads.(deferred := None);
        ApplyResult(d, nowMs, io.deferredStarts);
      }
      if res.None? {
        return;
      }
      ApplyResult(res.value, nowMs, io.resultStarts);
    }

    method PublishUpload(io: Io)
      requires pending.Some?
      modifies this`cache, this`lru, this`retired, this`pending, budget, driver
      ensures StoreView() == Publish(old(StoreView()), io)
    {
      var ok := io.viewCreated;
      if ok {
        ok := budget.AcquireTextureSet(io.setAdded);
      }
      if ok {
        InsertBackground(pending.value.root, pending.value.image);
        pending := None;
      } else {
        DropUpload();
      }
    }

    method PollUpload(nowMs: nat, io: Io)
      modifies this`cache, this`lru, this`retired, this`pending, this`screen, budget, driver
      ensures View() == MediaState.PollUpload(old(View()), nowMs, io)
    {
      if pending.None? || !io.fenceSignalled {
        return;
      }
      var root := pending.value.root;
      PublishUpload(io);
      if root == screen.shownRoot {
        MarkIncomingReady(nowMs);
      }
    }

    // --- one frame ---------------------------------------------------------------------------------

    method Update(nowMs: nat, io: Io)
      modifies this, budget, driver
      ensures View() == MediaState.Update(old(View()), nowMs, io)
    {
      if !ready {
        return;
      }
      screen := screen.(lastUpdateMs := nowMs);
      frameCounter := frameCounter + 1;
      CollectRetired(false);
      ghost var begun := View();
      assert begun == BeginFrame(old(View()), nowMs);
      ServeFocus(nowMs);
      PollUpload(nowMs, io);
      ClaimResult(nowMs, io);
      FinishTransition(nowMs);
    }

    method ServeFocus(nowMs: nat)
      modifies this`cache, this`lru, this`retired, this`screen, this`audio, this`loads
      ensures View() == MediaState.ServeFocus(old(View()), nowMs)
    {
      if !screen.focusPending || !FocusLoadDue(screen.focusChangedMs, nowMs) {
        return;
      }
      screen := screen.(focusPending := false);
      if screen.focusRoot != screen.shownRoot {
        StartLoad(screen.focusRoot, nowMs);
      }
    }

    method FinishTransition(nowMs: nat)
      modifies this`screen, this`audio
      ensures View() == MediaState.FinishTransition(old(View()), nowMs)
    {
      if screen.transitionActive {
        var s := FadeNow(screen, nowMs);
        if s.done {
          screen := screen.(transitionActive := false, outgoingRoot := "");
          if audio.outgoing.Some? {
            audio := audio.(recent := audio.outgoing);
          }
          audio := audio.(outgoing := None);
        }
      }
    }

    method BackdropNow() returns (b: Backdrop)
      ensures b == BackdropOf(View())
    {
      if !ready {
        return Nothing;
      }
      var root, alpha := screen.shownRoot, 1.0;
      if screen.transitionActive {
        var s := FadeNow(screen, screen.lastUpdateMs);
        if s.oldAlpha > 0.0 {
          root, alpha := screen.outgoingRoot, s.oldAlpha;
        } else {
          alpha := s.newAlpha;
        }
      }
      if root == "" || alpha <= 0.0 || root !in cache {
        return Nothing;
      }
      return Shows(root, cache[root].image, alpha);
    }
  }

  /** One turn of the collecting loop: entry `i` erased if it is due, passed over if not. */
  lemma CollectOne(retired: seq<Retired>, i: nat, frameCounter: nat, force: bool)
    requires i < |retired|
    ensures var erased := retired[..i] + retired[i + 1..];
            if Expired(retired[i], frameCounter, force)
            then
              && erased[..i] + Kept(erased[i..], frameCounter, force) == retired[..i] + Kept(retired[i..], frameCounter, force)
              && ExpiredImages(retired[i..], frameCounter, force) == {retired[i].image} + ExpiredImages(erased[i..], frameCounter, force)
            else
              && retired[..i + 1] + Kept(retired[i + 1..], frameCounter, force) == retired[..i] + Kept(retired[i..], frameCounter, force)
              && ExpiredImages(retired[i..], frameCounter, force) == ExpiredImages(retired[i + 1..], frameCounter, force)
  {
    var rest, erased := retired[i..], retired[..i] + retired[i + 1..];
    assert rest[0] == retired[i] && rest[1..] == retired[i + 1..];
    assert erased[..i] == retired[..i] && erased[i..] == rest[1..];
    assert retired[..i + 1] == retired[..i] + [rest[0]];
    ExpiredSplit(rest, frameCounter, force);
    hide ExpiredImages;
    var kept := Kept(rest[1..], frameCounter, force);
    assert retired[..i] + [rest[0]] + kept == retired[..i] + ([rest[0]] + kept);
  }

  lemma ExpiredSplit(retired: seq<Retired>, frameCounter: nat, force: bool)
    requires retired != []
    ensures ExpiredImages(retired, frameCounter, force)
         == (if Expired(retired[0], frameCounter, force) then {retired[0].image} else {})
            + ExpiredImages(retired[1..], frameCounter, force)
  {
    var rest := retired[1..];
    forall x | x in ExpiredImages(rest, frameCounter, force) ensures x in ExpiredImages(retired, frameCounter, force) {
      var i :| 0 <= i < |rest| && Expired(rest[i], frameCounter, force) && rest[i].image == x;
      assert retired[i + 1] == rest[i];
    }
    forall x | x in ExpiredImages(retired, frameCounter, force)
      ensures x in ExpiredImages(rest, frameCounter, force) || (Expired(retired[0], frameCounter, force) && x == retired[0].image)
    {
      var i :| 0 <= i < |retired| && Expired(retired[i], frameCounter, force) && retired[i].image == x;
      if i > 0 {
        assert rest[i - 1] == retired[i];
      }
    }
  }
}

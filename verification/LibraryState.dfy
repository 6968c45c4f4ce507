/** The library view around the media runtime: covers and backgrounds drawing on one descriptor pool,
    frames submitted and waited for, the pool regrown. One function per phase of library_ui.cpp, and
    the theorems over every run: exact descriptor accounting, no cover refused in a pool that was sized
    for the library, and no image destroyed while a submitted frame may still sample it. */
module LibraryState {
  import opened Wrappers
  import opened LaunchPolicy
  import opened DescriptorBudget
  import opened MediaState
  import opened MediaStorage
  import opened MediaLoads
  import opened MediaDelivery

  datatype Game = Game(root: string, hasIcon: bool)

  /** A cover holds one descriptor set exactly when it has an image. */
  datatype Cover = Cover(tried: bool, image: Option<nat>)

  datatype Ui = Ui(
    ready: bool, media: Media,
    games: seq<Game>, covers: seq<Cover>, selected: nat,
    poolSets: nat, poolCap: nat, poolFullWarned: bool,
    submitted: set<nat>)   // what the frame in flight, whose fence was not yet waited for, samples

  function Capped(sets: nat, cap: nat): nat {
    if cap != 0 && sets > cap then cap else sets
  }

  function FreshUi(poolCap: nat, musicOn: bool): Ui {
    var sets := Capped(PoolSets(0), poolCap);
    Ui(true, Fresh(musicOn, Count(TextureBudget(sets), 0)), [], [], 0, sets, poolCap, false, {})
  }

  function CoverImages(covers: seq<Cover>): set<nat> {
    set i | 0 <= i < |covers| && covers[i].image.Some? :: covers[i].image.value
  }

  // --- covers --------------------------------------------------------------------------------------

  /** How decoding and uploading one icon ended, up to the descriptor set. */
  datatype CoverAnswer = NoImage | Uploaded(setAdded: bool)

  function CoverFor(u: Ui, i: nat, a: CoverAnswer): Ui
    requires i < |u.covers| == |u.games|
  {
    var cover := u.covers[i];
    var store := u.media.store;
    if cover.tried then u
    else if !u.games[i].hasIcon || a.NoImage? then u.(covers := u.covers[i := Cover(true, None)])
    else if store.budget.HasRoom() && a.setAdded then
      u.(covers := u.covers[i := Cover(true, Some(store.gpu.nextImage))],
         media := u.media.(store := store.(budget := store.budget.Taken(),
                                           gpu := store.gpu.(nextImage := store.gpu.nextImage + 1))))
    else
      u.(covers := u.covers[i := Cover(true, None)],
         poolFullWarned := u.poolFullWarned || !store.budget.HasRoom())
  }

  function Answer(answers: seq<CoverAnswer>, i: nat): CoverAnswer {
    if i < |answers| then answers[i] else NoImage
  }

  /** The grid drawn from title `i` on. */
  function DrawGrid(u: Ui, i: nat, answers: seq<CoverAnswer>): (v: Ui)
    requires i <= |u.covers| == |u.games|
    ensures |v.covers| == |v.games| == |u.games|
    decreases |u.covers| - i
  {
    if i == |u.covers| then u else DrawGrid(CoverFor(u, i, Answer(answers, i)), i + 1, answers)
  }

  function DestroyCovers(u: Ui): Ui {
    var gone := CoverImages(u.covers);
    var store := u.media.store;
    u.(covers := [],
       media := u.media.(store := store.(budget := store.budget.Released(|gone|), gpu := Destroyed(store.gpu, gone))))
  }

  // --- the pool ------------------------------------------------------------------------------------

  datatype GrowAnswer = GrowAnswer(poolCreated: bool, backendReinitialised: bool)

  predicate Grows(u: Ui, titles: nat, g: GrowAnswer)
    requires titles <= SIZE_MAX
  {
    u.ready && Capped(PoolSets(titles), u.poolCap) > u.poolSets && g.poolCreated
  }

  function EnsureCapacity(u: Ui, titles: nat, g: GrowAnswer): Ui
    requires titles <= SIZE_MAX
  {
    if !Grows(u, titles, g) then u
    else
      var want := Capped(PoolSets(titles), u.poolCap);
      var released := ReleaseBackgrounds(u.media);
      u.(media := released.(store := released.store.(budget := Count(TextureBudget(want), 0))),
         poolSets := want, poolFullWarned := false, ready := g.backendReinitialised)
  }

  function WaitIdle(u: Ui): Ui {
    u.(submitted := {})
  }

  function Untried(n: nat): (covers: seq<Cover>)
    ensures |covers| == n
    ensures forall i :: 0 <= i < n ==> covers[i] == Cover(false, None)
  {
    seq(n, _ => Cover(false, None))
  }

  /** The first title at or after `i` rooted at `root`, or the first of the list. */
  function IndexOf(games: seq<Game>, root: string, i: nat): nat
    requires i <= |games|
    decreases |games| - i
  {
    if i == |games| then 0 else if games[i].root == root then i else IndexOf(games, root, i + 1)
  }

  function SetGames(u: Ui, games: seq<Game>, g: GrowAnswer): Ui
    requires |games| <= SIZE_MAX
  {
    var keep := if u.selected < |u.games| then u.games[u.selected].root else "";
    var v := EnsureCapacity(DestroyCovers(WaitIdle(u)), |games|, g);
    v.(games := games, covers := Untried(|games|),
       selected := if keep == "" then 0 else IndexOf(games, keep, 0))
  }

  // --- one frame -----------------------------------------------------------------------------------

  datatype Present = NotAcquired | Lost | StaleFramebuffers(drained: bool) | SubmitFailed | Submitted

  datatype FrameInput = FrameInput(nowMs: nat, io: Io, answers: seq<CoverAnswer>, selects: nat,
                                   music: Option<bool>, deviceOpens: bool, present: Present)

  /** Focus and the media update, before anything is drawn. The frame in flight may still be running. */
  function UpdatePhase(u: Ui, f: FrameInput): Ui {
    var focused := if u.selected < |u.games| then SetFocus(u.media, u.games[u.selected].root, f.nowMs) else u.media;
    u.(media := Update(focused, f.nowMs, f.io))
  }

  function DrawPhase(u: Ui, f: FrameInput): Ui
    requires |u.covers| == |u.games|
  {
    if u.games == [] then u
    else
      var v := DrawGrid(u.(selected := if f.selects < |u.games| then f.selects else u.selected), 0, f.answers);
      if f.music.Some? then v.(media := SetMusicEnabled(v.media, f.music.value, f.deviceOpens)) else v
  }

  /** The images the recorded frame samples: the backdrop chosen after the update, and the covers. */
  function Sampled(backdrop: Backdrop, covers: seq<Cover>): set<nat> {
    (if backdrop.Shows? then {backdrop.image} else {}) + CoverImages(covers)
  }

  /** Waits for the previous frame's fence, then submits this one or not. */
  function PresentPhase(u: Ui, sampled: set<nat>, p: Present): Ui {
    match p
    case NotAcquired => u.(submitted := {})
    case Lost => u.(submitted := {}, ready := false)
    case StaleFramebuffers(drained) => u.(submitted := {}, ready := u.ready && drained)
    case SubmitFailed => u.(submitted := {}, ready := false)
    case Submitted => u.(submitted := sampled)
  }

  function RenderFrame(u: Ui, f: FrameInput): Ui
    requires |u.covers| == |u.games|
  {
    if !u.ready then u
    else
      var updated := UpdatePhase(u, f);
      var drawn := DrawPhase(updated, f);
      PresentPhase(drawn, Sampled(BackdropOf(updated.media), drawn.covers), f.present)
  }

  datatype UiStep =
    | Render(f: FrameInput)
    | Games(games: seq<Game>, g: GrowAnswer)
    | RecreateSwapchain(created: bool)
    | WorkerTakes
    | WorkerPosts(answer: LoadAnswer)

  predicate UiEnabled(u: Ui, step: UiStep) {
    match step
    case Games(games, _) => |games| <= SIZE_MAX
    case WorkerTakes => Enabled(u.media, Take)
    case WorkerPosts(a) => Enabled(u.media, Post(a))
    case _ => true
  }

  function UiNext(u: Ui, step: UiStep): Ui
    requires UiEnabled(u, step) && |u.covers| == |u.games|
  {
    match step
    case Render(f) => RenderFrame(u, f)
    case Games(games, g) => SetGames(u, games, g)
    case RecreateSwapchain(created) => if u.ready then u.(submitted := {}, ready := created) else u
    case WorkerTakes => u.(media := WorkerTake(u.media))
    case WorkerPosts(a) => u.(media := WorkerPost(u.media, a))
  }

  // --- invariant -----------------------------------------------------------------------------------

  predicate CoversApart(covers: seq<Cover>) {
    forall i, j :: 0 <= i < j < |covers| && covers[i].image.Some? && covers[j].image.Some? ==>
      covers[i].image.value != covers[j].image.value
  }

  predicate UntriedHaveNoImage(covers: seq<Cover>) {
    forall i :: 0 <= i < |covers| && !covers[i].tried ==> covers[i].image.None?
  }

  /** No frame the driver may still be running samples a destroyed image. */
  predicate NoUseAfterDestroy(u: Ui) {
    u.submitted !! u.media.store.gpu.destroyed
  }

  /** Holds between any two phases, with the previous frame possibly still running. */
  ghost predicate MidInv(u: Ui) {
    && |u.covers| == |u.games|
    && CoversApart(u.covers)
    && UntriedHaveNoImage(u.covers)
    && StorageInv(u.media.store, CoverImages(u.covers))
    && LoadsInv(u.media)
    && u.media.store.budget.capacity == TextureBudget(u.poolSets)
    && NoUseAfterDestroy(u)
  }

  /** Holds between any two steps. */
  ghost predicate UiInv(u: Ui) {
    && MidInv(u)
    && u.submitted <= CachedImages(u.media.store.cache) + CoverImages(u.covers)
  }

  lemma FreshUiInv(poolCap: nat, musicOn: bool)
    ensures UiInv(FreshUi(poolCap, musicOn))
  {
    var u := FreshUi(poolCap, musicOn);
    assert CoverImages(u.covers) == {};
    assert CachedImages(u.media.store.cache) == {};
    assert RetiredImages(u.media.store.retired) == {};
  }

  // --- covers keep the books -----------------------------------------------------------------------

  lemma CoverGainsImage(covers: seq<Cover>, i: nat, x: nat)
    requires i < |covers| && covers[i].image.None? && CoversApart(covers) && x !in CoverImages(covers)
    ensures CoverImages(covers[i := Cover(true, Some(x))]) == CoverImages(covers) + {x}
    ensures CoversApart(covers[i := Cover(true, Some(x))])
  {
    var next := covers[i := Cover(true, Some(x))];
    forall y | y in CoverImages(covers) + {x} ensures y in CoverImages(next) {
      if y == x {
        assert next[i].image == Some(y);
      } else {
        var j :| 0 <= j < |covers| && covers[j].image == Some(y);
        assert next[j].image == Some(y);
      }
    }
    forall j | 0 <= j < |covers| && covers[j].image.Some? ensures covers[j].image.value != x {
      assert covers[j].image.value in CoverImages(covers);
    }
  }

  lemma CoverStaysBare(covers: seq<Cover>, i: nat)
    requires i < |covers| && covers[i].image.None?
    ensures CoverImages(covers[i := Cover(true, None)]) == CoverImages(covers)
  {
    var next := covers[i := Cover(true, None)];
    forall y | y in CoverImages(covers) ensures y in CoverImages(next) {
      var j :| 0 <= j < |covers| && covers[j].image == Some(y);
      assert next[j].image == Some(y);
    }
  }

  lemma CoverTakesSet(s: Storage, others: set<nat>)
    requires StorageInv(s, others)
    ensures s.gpu.nextImage !in others && s.gpu.nextImage !in s.gpu.destroyed
    ensures StorageInv(s.(budget := s.budget.Taken(), gpu := s.gpu.(nextImage := s.gpu.nextImage + 1)),
                       others + {s.gpu.nextImage})
  {
    ImageCreated(s.gpu, CachedImages(s.cache), RetiredImages(s.retired), PendingImage(s.pending), others);
    OnePlaceOnly(s, others, s.gpu.nextImage);
  }

  lemma StoreChangesKeepLoads(m: Media, s: Storage)
    requires LoadsInv(m) && s.pending == m.store.pending
    ensures LoadsInv(m.(store := s))
  {
  }

  lemma CoverGoesBare(u: Ui, i: nat, warned: bool)
    requires MidInv(u) && i < |u.covers| && !u.covers[i].tried
    ensures var v := u.(covers := u.covers[i := Cover(true, None)], poolFullWarned := warned);
            MidInv(v) && CoverImages(v.covers) == CoverImages(u.covers)
  {
    hide StorageInv, LoadsInv;
    CoverStaysBare(u.covers, i);
  }

  lemma CoverForKeepsInv(u: Ui, i: nat, a: CoverAnswer)
    requires MidInv(u) && i < |u.covers|
    ensures var v := CoverFor(u, i, a);
            && MidInv(v)
            && v.media == u.media.(store := v.media.store)
            && v.media.store.cache == u.media.store.cache
            && v.submitted == u.submitted && v.games == u.games && v.poolSets == u.poolSets && v.poolCap == u.poolCap
            && CoverImages(u.covers) <= CoverImages(v.covers)
  {
    if !u.covers[i].tried {
      if u.games[i].hasIcon && a == Uploaded(true) && u.media.store.budget.HasRoom() {
        CoverGainsSet(u, i, CoverFor(u, i, a));
      } else {
        CoverGoesBare(u, i, CoverFor(u, i, a).poolFullWarned);
      }
    }
  }

  lemma CoverGainsSet(u: Ui, i: nat, v: Ui)
    requires MidInv(u) && i < |u.covers| && !u.covers[i].tried
    requires var s := u.media.store;
             v == u.(covers := u.covers[i := Cover(true, Some(s.gpu.nextImage))],
                     media := u.media.(store := s.(budget := s.budget.Taken(),
                                                   gpu := s.gpu.(nextImage := s.gpu.nextImage + 1))))
    ensures MidInv(v) && CoverImages(u.covers) <= CoverImages(v.covers)
  {
    var s := u.media.store;
    hide StorageInv, LoadsInv;
    CoverTakesSet(s, CoverImages(u.covers));
    CoverGainsImage(u.covers, i, s.gpu.nextImage);
    StoreChangesKeepLoads(u.media, v.media.store);
  }

  lemma {:induction false} DrawGridKeepsInv(u: Ui, i: nat, answers: seq<CoverAnswer>)
    requires MidInv(u) && i <= |u.covers|
    ensures var v := DrawGrid(u, i, answers);
            && MidInv(v)
            && v.media.store.cache == u.media.store.cache
            && v.submitted == u.submitted && v.games == u.games && v.poolSets == u.poolSets && v.poolCap == u.poolCap
    decreases |u.covers| - i
  {
    if i < |u.covers| {
      CoverForKeepsInv(u, i, Answer(answers, i));
      DrawGridKeepsInv(CoverFor(u, i, Answer(answers, i)), i + 1, answers);
    }
  }

  lemma CoversDestroyed(u: Ui)
    requires MidInv(u) && u.submitted == {}
    ensures var v := DestroyCovers(u);
            && StorageInv(v.media.store, {}) && LoadsInv(v.media)
            && v.media.store.budget.capacity == u.media.store.budget.capacity
  {
    var s, o := u.media.store, CoverImages(u.covers);
    var t := DestroyCovers(u).media.store;
    forall i: nat
      ensures Places(t.gpu, CachedImages(s.cache), RetiredImages(s.retired), PendingImage(s.pending), {}, i)
           == if i < t.gpu.nextImage then 1 else 0
    {
      OnePlaceOnly(s, o, i);
    }
  }

  // --- phases --------------------------------------------------------------------------------------

  lemma UpdatePhaseKeepsInv(u: Ui, f: FrameInput)
    requires UiInv(u)
    ensures MidInv(UpdatePhase(u, f))
  {
    var focused := if u.selected < |u.games| then SetFocus(u.media, u.games[u.selected].root, f.nowMs) else u.media;
    UpdateKeepsStorage(focused, CoverImages(u.covers), f.nowMs, f.io);
    UpdateKeepsLoads(focused, f.nowMs, f.io);
    var v := UpdatePhase(u, f);
    CapacityUntouched(focused, f.nowMs, f.io);
    forall x | x in u.submitted ensures x !in v.media.store.gpu.destroyed {
      if x in CoverImages(u.covers) {
        OnePlaceOnly(v.media.store, CoverImages(u.covers), x);
      }
    }
  }

  lemma SelectingKeepsInv(u: Ui, i: nat)
    requires MidInv(u)
    ensures MidInv(u.(selected := i))
  {
    hide StorageInv, LoadsInv, CoversApart, UntriedHaveNoImage;
  }

  lemma TogglingKeepsInv(u: Ui, on: bool, opens: bool)
    requires MidInv(u)
    ensures MidInv(u.(media := SetMusicEnabled(u.media, on, opens)))
    ensures SetMusicEnabled(u.media, on, opens).store == u.media.store
  {
    hide StorageInv, LoadsInv, CoversApart, UntriedHaveNoImage;
    MusicKeepsLoads(u.media, on, opens);
  }

  lemma DrawPhaseKeepsInv(u: Ui, f: FrameInput)
    requires MidInv(u)
    ensures var v := DrawPhase(u, f);
            && MidInv(v)
            && v.media.store.cache == u.media.store.cache
            && v.games == u.games && v.poolSets == u.poolSets && v.poolCap == u.poolCap
  {
    if u.games != [] {
      var u1 := u.(selected := if f.selects < |u.games| then f.selects else u.selected);
      SelectingKeepsInv(u, u1.selected);
      DrawGridKeepsInv(u1, 0, f.answers);
      var v := DrawGrid(u1, 0, f.answers);
      hide MidInv;
      if f.music.Some? {
        TogglingKeepsInv(v, f.music.value, f.deviceOpens);
      }
    }
  }

  lemma RenderFrameKeepsInv(u: Ui, f: FrameInput)
    requires UiInv(u)
    ensures UiInv(RenderFrame(u, f))
  {
    if u.ready {
      UpdatePhaseKeepsInv(u, f);
      var updated := UpdatePhase(u, f);
      DrawPhaseKeepsInv(updated, f);
      var drawn := DrawPhase(updated, f);
      var sampled := Sampled(BackdropOf(updated.media), drawn.covers);
      assert sampled <= CachedImages(drawn.media.store.cache) + CoverImages(drawn.covers);
      PresentKeepsInv(drawn, sampled, f.present);
    }
  }

  lemma PresentKeepsInv(u: Ui, sampled: set<nat>, p: Present)
    requires MidInv(u) && sampled <= CachedImages(u.media.store.cache) + CoverImages(u.covers)
    ensures UiInv(PresentPhase(u, sampled, p))
  {
    forall x | x in sampled ensures x !in u.media.store.gpu.destroyed {
      OnePlaceOnly(u.media.store, CoverImages(u.covers), x);
    }
  }

  lemma GrowingKeepsInv(u: Ui, titles: nat, g: GrowAnswer)
    requires titles <= SIZE_MAX && StorageInv(u.media.store, {}) && LoadsInv(u.media)
    requires u.media.store.budget.capacity == TextureBudget(u.poolSets)
    ensures var v := EnsureCapacity(u, titles, g);
            && StorageInv(v.media.store, {}) && LoadsInv(v.media)
            && v.media.store.budget.capacity == TextureBudget(v.poolSets)
            && v.submitted == u.submitted
            && (Grows(u, titles, g) ==> ReleaseBackgrounds(u.media).store.budget.used == 0)
  {
    if Grows(u, titles, g) {
      ReleaseEmpties(u.media.store, {});
      StepKeepsLoads(u.media, Release);
      var m := ReleaseBackgrounds(u.media);
      StoreChangesKeepLoads(m, m.store.(budget := Count(TextureBudget(Capped(PoolSets(titles), u.poolCap)), 0)));
    }
  }

  lemma SetGamesKeepsInv(u: Ui, games: seq<Game>, g: GrowAnswer)
    requires UiInv(u) && |games| <= SIZE_MAX
    ensures UiInv(SetGames(u, games, g))
  {
    var v := DestroyCovers(WaitIdle(u));
    CoversDestroyed(WaitIdle(u));
    GrowingKeepsInv(v, |games|, g);
    assert CoverImages(Untried(|games|)) == {};
  }

  lemma UiStepKeepsInv(u: Ui, step: UiStep)
    requires UiInv(u) && UiEnabled(u, step)
    ensures UiInv(UiNext(u, step))
  {
    match step
    case Render(f) => RenderFrameKeepsInv(u, f);
    case Games(games, g) => SetGamesKeepsInv(u, games, g);
    case RecreateSwapchain(_) =>
    case WorkerTakes => StepKeepsLoads(u.media, Take);
    case WorkerPosts(a) => StepKeepsLoads(u.media, Post(a));
  }

  // --- runs ----------------------------------------------------------------------------------------

  ghost predicate UiRun(u: Ui, steps: seq<UiStep>)
    decreases |steps|
  {
    steps == [] || (|u.covers| == |u.games| && UiEnabled(u, steps[0]) && UiRun(UiNext(u, steps[0]), steps[1..]))
  }

  ghost function UiAfter(u: Ui, steps: seq<UiStep>): Ui
    requires UiRun(u, steps)
    decreases |steps|
  {
    if steps == [] then u else UiAfter(UiNext(u, steps[0]), steps[1..])
  }

  lemma {:induction false} RunKeepsInv(u: Ui, steps: seq<UiStep>)
    requires UiInv(u) && UiRun(u, steps)
    ensures UiInv(UiAfter(u, steps))
    decreases |steps|
  {
    if steps != [] {
      UiStepKeepsInv(u, steps[0]);
      RunKeepsInv(UiNext(u, steps[0]), steps[1..]);
    }
  }

  /** Every state the view can reach, however frames, rescans, swapchains and the worker interleave:
      the counter is the number of sets held, backgrounds hold at most six, nothing in flight was
      destroyed, no load is lost, and the music belongs to the art. */
  lemma EveryReachableStateIsSound(poolCap: nat, musicOn: bool, steps: seq<UiStep>)
    requires UiRun(FreshUi(poolCap, musicOn), steps)
    ensures var u := UiAfter(FreshUi(poolCap, musicOn), steps);
            var s := u.media.store;
            && s.budget.used == |CoverImages(u.covers)| + |s.cache| + |s.retired|
            && |s.cache| + |s.retired| <= MAX_BACKGROUND_SETS
            && LruMatchesCache(s)
            && NoUseAfterDestroy(u)
            && NothingLost(u.media)
            && BelongsOrNone(u.media.audio.current, u.media.screen.shownRoot)
            && UiInv(u)
  {
    FreshUiInv(poolCap, musicOn);
    RunKeepsInv(FreshUi(poolCap, musicOn), steps);
    var u := UiAfter(FreshUi(poolCap, musicOn), steps);
    SixSetsAtMost(u.media.store, CoverImages(u.covers));
  }

  /** Also in the middle of any frame, when the update has destroyed what it retires and the previous
      frame has not been waited for. */
  lemma NoUseAfterDestroyInsideFrame(u: Ui, f: FrameInput)
    requires UiInv(u)
    ensures NoUseAfterDestroy(UpdatePhase(u, f))
    ensures NoUseAfterDestroy(DrawPhase(UpdatePhase(u, f), f))
    ensures DrawPhase(UpdatePhase(u, f), f).submitted == u.submitted
  {
    UpdatePhaseKeepsInv(u, f);
    DrawPhaseKeepsInv(UpdatePhase(u, f), f);
    var v := UpdatePhase(u, f);
    if v.games != [] {
      DrawGridKeepsInv(v.(selected := if f.selects < |v.games| then f.selects else v.selected), 0, f.answers);
    }
  }

  // --- no cover is refused in a pool sized for the library -----------------------------------------

  predicate Provisioned(u: Ui) {
    && |u.games| + BACKGROUND_SETS + RESERVED_SETS <= MAX_POOL_SETS
    && u.poolSets >= PoolSets(|u.games|)
  }

  lemma {:induction false} FewImages(covers: seq<Cover>)
    ensures |CoverImages(covers)| <= |covers|
  {
    if covers == [] {
      assert CoverImages(covers) == {};
    } else {
      var init, last := covers[..|covers| - 1], covers[|covers| - 1];
      FewImages(init);
      var extra := if last.image.Some? then {last.image.value} else {};
      assert CoverImages(covers) == CoverImages(init) + extra by {
        forall x | x in CoverImages(init) ensures x in CoverImages(covers) {
          var i :| 0 <= i < |init| && init[i].image == Some(x);
          assert covers[i].image == Some(x);
        }
      }
    }
  }

  lemma BareCoverLeavesRoom(covers: seq<Cover>, i: nat)
    requires i < |covers| && covers[i].image.None?
    ensures |CoverImages(covers)| < |covers|
  {
    var a, b := covers[..i], covers[i + 1..];
    FewImages(a);
    FewImages(b);
    assert CoverImages(covers) == CoverImages(a) + CoverImages(b) by {
      forall x | x in CoverImages(a) ensures x in CoverImages(covers) {
        var j :| 0 <= j < |a| && a[j].image == Some(x);
        assert covers[j].image == Some(x);
      }
      forall x | x in CoverImages(b) ensures x in CoverImages(covers) {
        var j :| 0 <= j < |b| && b[j].image == Some(x);
        assert covers[i + 1 + j].image == Some(x);
      }
      forall x | x in CoverImages(covers) ensures x in CoverImages(a) + CoverImages(b) {
        var j :| 0 <= j < |covers| && covers[j].image == Some(x);
        if j < i {
          assert a[j].image == Some(x);
        } else {
          assert b[j - i - 1].image == Some(x);
        }
      }
    }
  }

  /** Whenever a cover is still to be tried there is room for it, whatever the backgrounds hold. */
  lemma CoverHasRoom(u: Ui, i: nat)
    requires MidInv(u) && Provisioned(u) && i < |u.covers| && !u.covers[i].tried
    ensures u.media.store.budget.HasRoom()
  {
    SixSetsAtMost(u.media.store, CoverImages(u.covers));
    BareCoverLeavesRoom(u.covers, i);
  }

  /** A tried cover has its set exactly when it had an icon and nothing of its own failed. */
  predicate Settled(after: Cover, before: Cover, game: Game, a: CoverAnswer) {
    if before.tried then after == before
    else after.tried && (after.image.Some? <==> game.hasIcon && a == Uploaded(true))
  }

  lemma {:induction false} GridNeverRefuses(u: Ui, i: nat, answers: seq<CoverAnswer>)
    requires MidInv(u) && Provisioned(u) && i <= |u.covers|
    ensures var v := DrawGrid(u, i, answers);
            && v.poolFullWarned == u.poolFullWarned
            && (forall j :: 0 <= j < i ==> v.covers[j] == u.covers[j])
            && (forall j :: i <= j < |u.covers| ==> Settled(v.covers[j], u.covers[j], u.games[j], Answer(answers, j)))
    decreases |u.covers| - i
  {
    if i < |u.covers| {
      var a := Answer(answers, i);
      hide MidInv, Answer;
      CoverForKeepsInv(u, i, a);
      CoverNeverRefuses(u, i, a);
      GridNeverRefuses(CoverFor(u, i, a), i + 1, answers);
    }
  }

  lemma CoverNeverRefuses(u: Ui, i: nat, a: CoverAnswer)
    requires MidInv(u) && Provisioned(u) && i < |u.covers|
    ensures var v := CoverFor(u, i, a);
            && v.poolFullWarned == u.poolFullWarned
            && v.covers == u.covers[i := v.covers[i]]
            && Settled(v.covers[i], u.covers[i], u.games[i], a)
  {
    if !u.covers[i].tried {
      CoverHasRoom(u, i);
    }
  }

  lemma DrawPhaseNeverRefuses(u: Ui, f: FrameInput)
    requires MidInv(u) && Provisioned(u)
    ensures var v := DrawPhase(u, f);
            && v.poolFullWarned == u.poolFullWarned
            && (forall j :: 0 <= j < |u.covers| ==> Settled(v.covers[j], u.covers[j], u.games[j], Answer(f.answers, j)))
  {
    if u.games != [] {
      GridNeverRefuses(u.(selected := if f.selects < |u.games| then f.selects else u.selected), 0, f.answers);
    }
  }

  /** A frame in a provisioned library gives every cover it tries a set unless the cover's own decoding
      or upload failed, and never reports the pool full. */
  lemma FrameNeverRefuses(u: Ui, f: FrameInput)
    requires UiInv(u) && Provisioned(u) && u.ready
    ensures var v := RenderFrame(u, f);
            && v.poolFullWarned == u.poolFullWarned
            && v.poolSets == u.poolSets && v.poolCap == u.poolCap && v.games == u.games
            && (forall j :: 0 <= j < |u.covers| ==> Settled(v.covers[j], u.covers[j], u.games[j], Answer(f.answers, j)))
  {
    UpdatePhaseKeepsInv(u, f);
    var updated := UpdatePhase(u, f);
    var media := updated.media;
    assert updated == u.(media := media);
    DrawPhaseKeepsInv(updated, f);
    DrawPhaseNeverRefuses(updated, f);
    var drawn := DrawPhase(updated, f);
    PresentTouchesOnlyFrame(drawn, Sampled(BackdropOf(media), drawn.covers), f.present);
  }

  lemma PresentTouchesOnlyFrame(u: Ui, sampled: set<nat>, p: Present)
    ensures var v := PresentPhase(u, sampled, p); v == u.(submitted := v.submitted, ready := v.ready)
  {
  }

  /** A run whose libraries fit below the ceiling and whose pool grows always succeed. */
  ghost predicate GrowsSucceed(steps: seq<UiStep>) {
    forall i :: 0 <= i < |steps| && steps[i].Games? ==>
      && |steps[i].games| + BACKGROUND_SETS + RESERVED_SETS <= MAX_POOL_SETS
      && steps[i].g == GrowAnswer(true, true)
  }

  /** `ready` can be lost to a failed driver call; a view that is down draws nothing and refuses nothing. */
  predicate NeverShort(u: Ui) {
    u.poolCap == 0 && !u.poolFullWarned && (u.ready ==> Provisioned(u))
  }

  lemma ProvisionedStep(u: Ui, step: UiStep)
    requires UiInv(u) && UiEnabled(u, step) && NeverShort(u) && GrowsSucceed([step])
    ensures NeverShort(UiNext(u, step))
  {
    match step
    case Render(f) =>
      if u.ready {
        FrameNeverRefuses(u, f);
      }
    case Games(games, g) =>
      assert [step][0].Games?;
      assert SetGames(u, games, g).games == games;
    case _ =>
  }

  lemma {:induction false} ProvisionedRun(u: Ui, steps: seq<UiStep>)
    requires UiInv(u) && UiRun(u, steps) && GrowsSucceed(steps) && NeverShort(u)
    ensures NeverShort(UiAfter(u, steps))
    decreases |steps|
  {
    if steps != [] {
      UiStepKeepsInv(u, steps[0]);
      ProvisionedStep(u, steps[0]);
      ProvisionedRun(UiNext(u, steps[0]), steps[1..]);
    }
  }

  /** From start-up, uncapped: the exhaustion notice is never given. */
  lemma UncappedLibraryNeverRunsOut(musicOn: bool, steps: seq<UiStep>)
    requires UiRun(FreshUi(0, musicOn), steps) && GrowsSucceed(steps)
    ensures !UiAfter(FreshUi(0, musicOn), steps).poolFullWarned
  {
    FreshUiInv(0, musicOn);
    ProvisionedRun(FreshUi(0, musicOn), steps);
  }

  // --- what the user sees of it --------------------------------------------------------------------

  lemma {:induction false} FirstIndex(games: seq<Game>, root: string, i: nat)
    requires i <= |games|
    ensures var k := IndexOf(games, root, i);
            if exists j :: i <= j < |games| && games[j].root == root
            then i <= k < |games| && games[k].root == root && forall j :: i <= j < k ==> games[j].root != root
            else k == 0
    decreases |games| - i
  {
    if i < |games| && games[i].root != root {
      FirstIndex(games, root, i + 1);
      var k := IndexOf(games, root, i + 1);
      if exists j :: i + 1 <= j < |games| && games[j].root == root {
        assert games[k].root == root;
      } else {
        assert forall j :: i <= j < |games| ==> games[j].root != root;
      }
    }
  }

  /** A rescan lists the new games with no cover tried, and stays on the selected title wherever it now
      is; a title that is gone, or that has no root, gives way to the first. */
  lemma RescanKeepsSelection(u: Ui, games: seq<Game>, g: GrowAnswer)
    requires |games| <= SIZE_MAX
    ensures var v := SetGames(u, games, g);
            && v.games == games && |v.covers| == |games|
            && (forall i :: 0 <= i < |games| ==> v.covers[i] == Cover(false, None))
            && (if u.selected < |u.games| && u.games[u.selected].root != ""
                   && exists j :: 0 <= j < |games| && games[j].root == u.games[u.selected].root
                then && v.selected < |games|
                     && games[v.selected].root == u.games[u.selected].root
                     && forall j :: 0 <= j < v.selected ==> games[j].root != u.games[u.selected].root
                else v.selected == 0)
  {
    hide DestroyCovers, EnsureCapacity;
    if u.selected < |u.games| {
      FirstIndex(games, u.games[u.selected].root, 0);
    }
  }

  /** A pool that has to grow, and can, grows enough for every title, as far as its ceiling and its cap let
      it, forgets the old notice and leaves the view up. One that cannot stays as it is. */
  lemma RescanGrowsPool(u: Ui, games: seq<Game>)
    requires u.ready && |games| <= SIZE_MAX
    ensures var v := SetGames(u, games, GrowAnswer(true, true));
            var need := if |games| + 9 <= 8192 then |games| + 9 else 8192;
            && v.ready && v.poolSets >= u.poolSets
            && v.poolSets >= (if u.poolCap != 0 && u.poolCap < need then u.poolCap else need)
            && (v.poolSets > u.poolSets ==> !v.poolFullWarned && v.media.store.budget == Count(v.poolSets - 1, 0))
            && (v.poolSets == u.poolSets ==> v.poolFullWarned == u.poolFullWarned)
    ensures var v := SetGames(u, games, GrowAnswer(false, true));
            v.ready && v.poolSets == u.poolSets && v.poolFullWarned == u.poolFullWarned
            && v.media.store.budget.capacity == u.media.store.budget.capacity
  {
    hide IndexOf, ReleaseBackgrounds;
    if |games| + 9 <= 8192 {
      PoolIsLeast(|games|, if |games| + 9 > 32 then |games| + 9 else 32);
    } else {
      PoolHasCeiling(|games|);
    }
  }

  /** The view goes down only when the device or the swapchain failed, or a stale frame could not be
      drained. */
  lemma ViewStaysUp(u: Ui, sampled: set<nat>, p: Present)
    requires u.ready
    ensures PresentPhase(u, sampled, p).ready <==> p.NotAcquired? || p.Submitted? || (p.StaleFramebuffers? && p.drained)
    ensures PresentPhase(u, sampled, p).submitted == if p.Submitted? then sampled else {}
  {
  }

  lemma DrawingKeepsFocus(u: Ui, i: nat, answers: seq<CoverAnswer>)
    requires i <= |u.covers| == |u.games|
    ensures var v := DrawGrid(u, i, answers);
            v.media == u.media.(store := v.media.store) && v.games == u.games && v.selected == u.selected && v.ready == u.ready
    decreases |u.covers| - i
  {
    if i < |u.covers| {
      DrawingKeepsFocus(CoverFor(u, i, Answer(answers, i)), i + 1, answers);
    }
  }

  lemma UpdatingKeepsFocus(m: Media, nowMs: nat, io: Io)
    ensures Update(m, nowMs, io).screen.focusRoot == m.screen.focusRoot && Update(m, nowMs, io).ready == m.ready
  {
    if m.ready {
      var m1 := ServeFocus(BeginFrame(m, nowMs), nowMs);
      assert m1.screen.focusRoot == m.screen.focusRoot && m1.ready == m.ready by {
        hide TouchLru, BeginFrameStorage, FadeStateAt;
      }
      hide ServeFocus, BeginFrame, Publish;
      PollingAndFinishingKeepAsking(m1, nowMs, io);
      var m2 := PollUpload(m1, nowMs, io);
      ClaimingStartsNothing(m2, nowMs, io);
      ClaimingLeavesFocus(m2, nowMs, io);
      PollingAndFinishingKeepAsking(ClaimResult(m2, nowMs, io), nowMs, io);
      FinishingKeepsFocus(ClaimResult(m2, nowMs, io), nowMs);
    }
  }

  lemma FinishingKeepsFocus(m: Media, nowMs: nat)
    ensures FinishTransition(m, nowMs).screen.focusRoot == m.screen.focusRoot
  {
  }

  /** Every frame takes its focus from the selected title, then the user's choice and toggle from what was
      drawn. */
  lemma FrameFollowsUser(u: Ui, f: FrameInput)
    requires u.ready && u.media.ready && |u.covers| == |u.games|
    ensures var v := RenderFrame(u, f);
            && (f.present.Submitted? || f.present.NotAcquired? ==> v.ready)
            && (u.selected < |u.games| ==> v.media.screen.focusRoot == u.games[u.selected].root)
            && (f.selects < |u.games| ==> v.selected == f.selects)
            && (f.selects >= |u.games| ==> v.selected == u.selected)
            && (u.games != [] && f.music == Some(false) ==> !v.media.audio.musicOn)
            && (u.games != [] && f.music == Some(true) && f.deviceOpens ==> v.media.audio.musicOn)
  {
    var focused := if u.selected < |u.games| then SetFocus(u.media, u.games[u.selected].root, f.nowMs) else u.media;
    assert u.selected < |u.games| ==> focused.screen.focusRoot == u.games[u.selected].root;
    UpdatingKeepsFocus(focused, f.nowMs, f.io);
    var updated := UpdatePhase(u, f);
    hide Update, SetFocus;
    if u.games != [] {
      var u1 := updated.(selected := if f.selects < |u.games| then f.selects else u.selected);
      DrawingKeepsFocus(u1, 0, f.answers);
      var v := DrawGrid(u1, 0, f.answers);
      if f.music.Some? {
        MusicSwitches(v.media, f.music.value, f.deviceOpens);
        MusicKeepsFocus(v.media, f.music.value, f.deviceOpens);
      }
    }
    var drawn := DrawPhase(updated, f);
    hide DrawPhase, DrawGrid;
    PresentTouchesOnlyFrame(drawn, Sampled(BackdropOf(updated.media), drawn.covers), f.present);
    ViewStaysUp(drawn, Sampled(BackdropOf(updated.media), drawn.covers), f.present);
  }

  lemma MusicKeepsFocus(m: Media, on: bool, opens: bool)
    ensures SetMusicEnabled(m, on, opens).screen == m.screen && SetMusicEnabled(m, on, opens).ready == m.ready
  {
  }

  // --- a selection that rests ----------------------------------------------------------------------

  /** The user leaves the selection and the switch alone, and the device works. */
  predicate HandsOff(u: Ui, f: FrameInput) {
    f.selects >= |u.games| && f.music.None? && (f.present.Submitted? || f.present.NotAcquired?)
  }

  /** Such a frame is the media update, with covers taking their sets besides. */
  lemma HandsOffFrame(u: Ui, f: FrameInput)
    requires u.ready && |u.covers| == |u.games| && HandsOff(u, f)
    ensures var v := RenderFrame(u, f);
            && v.ready && v.games == u.games && v.selected == u.selected && |v.covers| == |v.games|
            && v.media == UpdatePhase(u, f).media.(store := v.media.store)
  {
    var updated := UpdatePhase(u, f);
    assert updated == u.(media := updated.media);
    hide UpdatePhase;
    if u.games != [] {
      DrawingKeepsFocus(updated.(selected := u.selected), 0, f.answers);
    }
    var drawn := DrawPhase(updated, f);
    assert drawn.media == updated.media.(store := drawn.media.store) && drawn.selected == u.selected;
    hide DrawPhase, DrawGrid;
    PresentTouchesOnlyFrame(drawn, Sampled(BackdropOf(updated.media), drawn.covers), f.present);
    ViewStaysUp(drawn, Sampled(BackdropOf(updated.media), drawn.covers), f.present);
  }

  /** `root` has been selected since `chosenMs` and is not shown yet. */
  ghost predicate Waits(u: Ui, root: string, chosenMs: nat) {
    && UiInv(u) && u.ready && u.media.ready
    && u.selected < |u.games| && u.games[u.selected].root == root
    && u.media.screen.focusRoot == root && u.media.screen.focusPending && u.media.screen.focusChangedMs == chosenMs
    && u.media.screen.shownRoot != root
  }

  lemma SelectionIsTaken(u: Ui, f: FrameInput)
    requires UiInv(u) && u.ready && u.media.ready && HandsOff(u, f)
    requires u.selected < |u.games| && u.games[u.selected].root != u.media.screen.focusRoot
    requires u.games[u.selected].root != u.media.screen.shownRoot
    ensures Waits(RenderFrame(u, f), u.games[u.selected].root, f.nowMs)
  {
    var root := u.games[u.selected].root;
    RenderFrameKeepsInv(u, f);
    FocusIsTaken(u.media, root, f.nowMs);
    var focused := SetFocus(u.media, root, f.nowMs);
    UnrestedFocusWaits(focused, f.nowMs, f.io);
    UpdatingKeepsFocus(focused, f.nowMs, f.io);
    assert UpdatePhase(u, f).media == Update(focused, f.nowMs, f.io);
    hide UiInv, Update, UpdatePhase, RenderFrame;
    HandsOffFrame(u, f);
  }

  lemma SelectionIsKept(u: Ui, f: FrameInput, root: string, chosenMs: nat)
    requires Waits(u, root, chosenMs) && HandsOff(u, f) && f.nowMs < chosenMs + 180
    ensures Waits(RenderFrame(u, f), root, chosenMs)
    ensures RenderFrame(u, f).games == u.games && RenderFrame(u, f).media.loads.started == u.media.loads.started
  {
    RenderFrameKeepsInv(u, f);
    assert SetFocus(u.media, root, f.nowMs) == u.media;
    UnrestedFocusWaits(u.media, f.nowMs, f.io);
    UpdatingKeepsFocus(u.media, f.nowMs, f.io);
    assert UpdatePhase(u, f).media == Update(u.media, f.nowMs, f.io);
    hide UiInv, Update, UpdatePhase, RenderFrame;
    HandsOffFrame(u, f);
  }

  lemma SelectionIsServed(u: Ui, f: FrameInput, root: string, chosenMs: nat)
    requires Waits(u, root, chosenMs) && HandsOff(u, f) && f.nowMs >= chosenMs + 180
    ensures Asks(u.media, RenderFrame(u, f).media, root)
  {
    assert SetFocus(u.media, root, f.nowMs) == u.media;
    RestedFocusIsServed(u.media, f.nowMs, f.io);
    assert UpdatePhase(u, f).media == Update(u.media, f.nowMs, f.io);
    hide UiInv, Update, UpdatePhase, RenderFrame;
    HandsOffFrame(u, f);
  }

  ghost function Framed(u: Ui, frames: seq<FrameInput>): Ui
    requires UiInv(u)
    decreases |frames|
  {
    if frames == [] then u
    else
      RenderFrameKeepsInv(u, frames[0]);
      Framed(RenderFrame(u, frames[0]), frames[1..])
  }

  /** A selection left alone: the frames of its first 180 milliseconds start nothing, and the first frame
      after them loads it. */
  lemma {:induction false} RestingSelectionIsServed(u: Ui, frames: seq<FrameInput>, last: FrameInput, root: string, chosenMs: nat)
    requires Waits(u, root, chosenMs)
    requires forall i :: 0 <= i < |frames| ==> HandsOff(u, frames[i]) && frames[i].nowMs < chosenMs + 180
    requires HandsOff(u, last) && last.nowMs >= chosenMs + 180
    ensures var v := Framed(u, frames);
            && Waits(v, root, chosenMs) && v.media.loads.started == u.media.loads.started
            && Asks(v.media, RenderFrame(v, last).media, root)
    decreases |frames|
  {
    if frames == [] {
      SelectionIsServed(u, last, root, chosenMs);
    } else {
      SelectionIsKept(u, frames[0], root, chosenMs);
      hide Waits, UiInv, RenderFrame;
      RestingSelectionIsServed(RenderFrame(u, frames[0]), frames[1..], last, root, chosenMs);
    }
  }

  /** A cover that finds the pool full goes without art and says so; one whose own upload fails does not. */
  lemma RefusedCover(u: Ui, i: nat, a: CoverAnswer)
    requires i < |u.covers| == |u.games| && !u.covers[i].tried && u.games[i].hasIcon && a.Uploaded?
    ensures var v := CoverFor(u, i, a);
            && v.covers[i].tried
            && (u.media.store.budget.used >= u.media.store.budget.capacity ==> v.covers[i].image.None? && v.poolFullWarned)
            && (u.media.store.budget.used < u.media.store.budget.capacity ==> v.poolFullWarned == u.poolFullWarned)
  {
  }

  /** In a library whose pool was sized for it the background layer has its allowance, so a title that
      rests is shown. */
  lemma ProvisionedIsSound(u: Ui)
    requires UiInv(u) && Provisioned(u)
    ensures Sound(u.media, CoverImages(u.covers))
  {
    FewImages(u.covers);
  }

  // --- the pool is never overdrawn -----------------------------------------------------------------

  /** All sets taken and the font atlas fit into the pool. */
  predicate PoolHolds(u: Ui) {
    u.media.store.budget.used + 1 <= u.poolSets
  }

  lemma PoolHoldsIsWithin(u: Ui)
    requires u.media.store.budget.capacity == TextureBudget(u.poolSets) && u.poolSets >= 1
    ensures PoolHolds(u) <==> WithinCapacity(u.media.store)
  {
  }

  lemma {:induction false} DrawingStaysWithin(u: Ui, i: nat, answers: seq<CoverAnswer>)
    requires i <= |u.covers| == |u.games| && WithinCapacity(u.media.store)
    ensures WithinCapacity(DrawGrid(u, i, answers).media.store)
    ensures DrawGrid(u, i, answers).poolSets == u.poolSets && DrawGrid(u, i, answers).poolCap == u.poolCap
    decreases |u.covers| - i
  {
    if i < |u.covers| {
      DrawingStaysWithin(CoverFor(u, i, Answer(answers, i)), i + 1, answers);
    }
  }

  lemma RenderingStaysWithin(u: Ui, f: FrameInput)
    requires |u.covers| == |u.games| && WithinCapacity(u.media.store)
    ensures WithinCapacity(RenderFrame(u, f).media.store)
    ensures RenderFrame(u, f).poolSets == u.poolSets && RenderFrame(u, f).poolCap == u.poolCap
  {
    var focused := if u.selected < |u.games| then SetFocus(u.media, u.games[u.selected].root, f.nowMs) else u.media;
    UpdateStaysWithin(focused, f.nowMs, f.io);
    var updated := UpdatePhase(u, f);
    assert updated == u.(media := updated.media) && WithinCapacity(updated.media.store);
    hide Update, UpdatePhase, SetFocus;
    if u.games != [] {
      DrawingStaysWithin(updated.(selected := if f.selects < |u.games| then f.selects else u.selected), 0, f.answers);
    }
    var drawn := DrawPhase(updated, f);
    assert WithinCapacity(drawn.media.store) && drawn.poolSets == u.poolSets && drawn.poolCap == u.poolCap;
    hide DrawPhase, DrawGrid;
    PresentTouchesOnlyFrame(drawn, Sampled(BackdropOf(updated.media), drawn.covers), f.present);
  }

  predicate CapHolds(u: Ui) {
    u.poolCap != 0 ==> u.poolSets <= u.poolCap
  }

  lemma RescanStaysWithin(u: Ui, games: seq<Game>, g: GrowAnswer)
    requires |games| <= SIZE_MAX && WithinCapacity(u.media.store) && u.poolSets >= 1 && CapHolds(u)
    ensures var v := SetGames(u, games, g);
            WithinCapacity(v.media.store) && v.poolSets >= u.poolSets && v.poolCap == u.poolCap && CapHolds(v)
  {
    hide IndexOf, ReleaseBackgrounds;
  }

  lemma {:induction false} RunStaysWithin(u: Ui, steps: seq<UiStep>)
    requires UiRun(u, steps) && WithinCapacity(u.media.store) && u.poolSets >= 1 && CapHolds(u)
    ensures var v := UiAfter(u, steps);
            WithinCapacity(v.media.store) && v.poolSets >= u.poolSets && v.poolCap == u.poolCap && CapHolds(v)
    decreases |steps|
  {
    if steps != [] {
      match steps[0] {
        case Render(f) => RenderingStaysWithin(u, f);
        case Games(games, g) => RescanStaysWithin(u, games, g);
        case _ =>
      }
      hide RenderFrame, SetGames;
      RunStaysWithin(UiNext(u, steps[0]), steps[1..]);
    }
  }

  /** On every run, capped or not, whatever fails: no more sets are ever out than the pool has, the font
      atlas included; the pool never shrinks, and never passes its cap. */
  lemma PoolIsNeverOverdrawn(poolCap: nat, musicOn: bool, steps: seq<UiStep>)
    requires UiRun(FreshUi(poolCap, musicOn), steps)
    ensures var u := UiAfter(FreshUi(poolCap, musicOn), steps);
            && PoolHolds(u) && u.poolSets >= FreshUi(poolCap, musicOn).poolSets
            && (poolCap != 0 ==> u.poolSets <= poolCap)
  {
    FreshUiInv(poolCap, musicOn);
    RunKeepsInv(FreshUi(poolCap, musicOn), steps);
    RunStaysWithin(FreshUi(poolCap, musicOn), steps);
    var u := UiAfter(FreshUi(poolCap, musicOn), steps);
    hide UiRun, UiAfter;
    PoolHoldsIsWithin(u);
  }
}

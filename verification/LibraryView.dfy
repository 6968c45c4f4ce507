/** The parts of library_ui.cpp that share the descriptor pool and order the frame, in place. `submitted`
    stands for the driver's knowledge of the frame in flight, which the source only has as a fence. */
module LibraryView {
  import opened Wrappers
  import opened DescriptorBudget
  import opened MediaState
  import opened MediaRuntime
  import opened LibraryState

  class LibraryUi {
    const media: LibraryMedia

    var ready: bool
    var games: seq<Game>
    var covers: seq<Cover>
    var selected: nat
    var poolSets: nat
    const poolCap: nat
    var poolFullWarned: bool
    ghost var submitted: set<nat>

    constructor (poolCap: nat, deviceOpens: bool)
      ensures View() == FreshUi(poolCap, deviceOpens)
      ensures fresh(media) && fresh(media.budget) && fresh(media.driver)
    {
      var budget := new Budget();
      var driver := new Driver();
      var sets := PoolSets(0);
      if poolCap != 0 && sets > poolCap {
        sets := poolCap;
      }
      budget.Reset(TextureBudget(sets));
      media := new LibraryMedia(budget, driver, deviceOpens);
      ready := true;
      games, covers, selected := [], [], 0;
      poolSets := sets;
      this.poolCap := poolCap;
      poolFullWarned := false;
      submitted := {};
    }

    ghost function View(): Ui
      reads this, media, media.budget, media.driver
    {
      Ui(ready, media.View(), games, covers, selected, poolSets, poolCap, poolFullWarned, submitted)
    }

    method DestroyCovers()
      requires CoversApart(covers)
      modifies this`covers, media.budget, media.driver
      ensures View() == LibraryState.DestroyCovers(old(View()))
    {
      ReleaseCovers();
      covers := [];
    }

    method ReleaseCovers()
      requires CoversApart(covers)
      modifies media.budget, media.driver
      ensures media.budget.View() == old(media.budget.View()).Released(|CoverImages(covers)|)
      ensures media.driver.View() == Destroyed(old(media.driver.View()), CoverImages(covers))
    {
      ghost var count, gpu := media.budget.View(), media.driver.View();
      ghost var gone: set<nat> := {};
      var i := 0;
      while i < |covers|
        invariant i <= |covers|
        invariant gone == CoverImages(covers[..i])
        invariant media.budget.View() == count.Released(|gone|)
        invariant media.driver.View() == Destroyed(gpu, gone)
        modifies media.budget, media.driver
      {
        PrefixImages(covers, i);
        if covers[i].image.Some? {
          var image := covers[i].image.value;
          assert |gone + {image}| == |gone| + 1;
          media.DestroyBackground(image, true);
          gone := gone + {image};
        }
        i := i + 1;
      }
      assert covers[..i] == covers;
    }

    method Regrow(want: nat, reinitialised: bool)
      modifies this`ready, this`poolSets, this`poolFullWarned
      modifies media, media.budget, media.driver
      ensures ready == (old(ready) && reinitialised) && poolSets == want && !poolFullWarned
      ensures var m := ReleaseBackgrounds(old(media.View()));
              media.View() == m.(store := m.store.(budget := Count(TextureBudget(want), 0)))
    {
      media.ReleaseBackgrounds();
      media.budget.Reset(TextureBudget(want));
      poolSets := want;
      poolFullWarned := false;
      if !reinitialised {
        ready := false;
      }
    }

    method EnsureCapacity(titles: nat, g: GrowAnswer)
      requires titles <= SIZE_MAX
      modifies this`ready, this`poolSets, this`poolFullWarned
      modifies media, media.budget, media.driver
      ensures View() == LibraryState.EnsureCapacity(old(View()), titles, g)
    {
      if !ready {
        return;
      }
      var want := PoolSets(titles);
      if poolCap != 0 && want > poolCap {
        want := poolCap;
      }
      if want <= poolSets || !g.poolCreated {
        return;
      }
      Regrow(want, g.backendReinitialised);
    }

    method SetGames(newGames: seq<Game>, g: GrowAnswer)
      requires |newGames| <= SIZE_MAX && CoversApart(covers)
      modifies this, media, media.budget, media.driver
      ensures View() == LibraryState.SetGames(old(View()), newGames, g)
    {
      var keep := "";
      if selected < |games| {
        keep := games[selected].root;
      }
      submitted := {};   // the device is waited for
      DestroyCovers();
      EnsureCapacity(|newGames|, g);
      games := newGames;
      covers := Untried(|games|);
      selected := 0;
      if keep != "" {
        selected := Find(games, keep);
      }
    }

    method CoverFor(i: nat, a: CoverAnswer)
      requires i < |covers| == |games|
      modifies this`covers, this`poolFullWarned, media.budget, media.driver
      ensures View() == LibraryState.CoverFor(old(View()), i, a)
    {
      if covers[i].tried {
        return;
      }
      covers := covers[i := Cover(true, None)];
      if !games[i].hasIcon || a.NoImage? {
        return;
      }
      var poolFull := media.budget.used >= media.budget.capacity;
      var got := media.budget.AcquireTextureSet(a.setAdded);
      if got {
        var image := media.driver.Create();
        covers := covers[i := Cover(true, Some(image))];
      } else if poolFull {
        poolFullWarned := true;
      }
    }

    method DrawGrid(answers: seq<CoverAnswer>)
      requires |covers| == |games|
      modifies this`covers, this`poolFullWarned, media.budget, media.driver
      ensures View() == LibraryState.DrawGrid(old(View()), 0, answers)
    {
      var i := 0;
      while i < |games|
        invariant i <= |games| == |covers|
        invariant View().games == old(View()).games
        invariant LibraryState.DrawGrid(View(), i, answers) == LibraryState.DrawGrid(old(View()), 0, answers)
        decreases |games| - i
      {
        CoverFor(i, Answer(answers, i));
        i := i + 1;
      }
    }

    method RenderFrame(f: FrameInput)
      requires |covers| == |games|
      modifies this, media, media.budget, media.driver
      ensures View() == LibraryState.RenderFrame(old(View()), f)
    {
      if !ready {
        return;
      }
      UpdateMedia(f);
      var backdrop := media.BackdropNow();
      DrawLibrary(f);
      PresentFrame(Sampled(backdrop, covers), f.present);
    }

    method UpdateMedia(f: FrameInput)
      modifies media, media.budget, media.driver
      ensures View() == UpdatePhase(old(View()), f)
    {
      if selected < |games| {
        media.SetFocus(games[selected].root, f.nowMs);
      }
      media.Update(f.nowMs, f.io);
    }

    method DrawLibrary(f: FrameInput)
      requires |covers| == |games|
      modifies this`selected, this`covers, this`poolFullWarned, media, media.budget, media.driver
      ensures View() == DrawPhase(old(View()), f)
    {
      if games != [] {
        if f.selects < |games| {
          selected := f.selects;
        }
        DrawGrid(f.answers);
        if f.music.Some? {
          media.SetMusicEnabled(f.music.value, f.deviceOpens);
        }
      }
    }

    /** The fence of the previous frame is waited for before anything new is recorded. */
    method PresentFrame(ghost sampled: set<nat>, p: Present)
      modifies this`ready, this`submitted
      ensures View() == PresentPhase(old(View()), sampled, p)
    {
      submitted := {};
      match p {
        case NotAcquired =>
        case Lost =>
          ready := false;
        case StaleFramebuffers(drained) =>
          ready := ready && drained;
        case SubmitFailed =>
          ready := false;
        case Submitted =>
          submitted := sampled;
      }
    }
  }

  method Find(games: seq<Game>, root: string) returns (i: nat)
    ensures i == IndexOf(games, root, 0)
  {
    i := 0;
    while i < |games|
      invariant i <= |games|
      invariant IndexOf(games, root, i) == IndexOf(games, root, 0)
    {
      if games[i].root == root {
        return;
      }
      i := i + 1;
    }
    i := 0;
  }

  lemma PrefixImages(covers: seq<Cover>, i: nat)
    requires i < |covers| && CoversApart(covers)
    ensures CoverImages(covers[..i + 1])
         == CoverImages(covers[..i]) + if covers[i].image.Some? then {covers[i].image.value} else {}
    ensures covers[i].image.Some? ==> covers[i].image.value !in CoverImages(covers[..i])
  {
    var a, b := covers[..i], covers[..i + 1];
    forall x | x in CoverImages(a) ensures x in CoverImages(b) {
      var j :| 0 <= j < |a| && a[j].image == Some(x);
      assert b[j].image == Some(x);
    }
    forall x | x in CoverImages(b) ensures x in CoverImages(a) || covers[i].image == Some(x) {
      var j :| 0 <= j < |b| && b[j].image == Some(x);
      if j < i {
        assert a[j].image == Some(x);
      }
    }
    if covers[i].image.Some? {
      assert b[i].image == covers[i].image;
    }
  }
}

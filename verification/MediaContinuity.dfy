/** What the eye sees when focus moves: interrupting a transition at any instant keeps the same picture
    at the same opacity, up to the truncation of one back-dated millisecond. */
module MediaContinuity {
  import opened Wrappers
  import opened LaunchPolicy
  import opened MediaState
  import opened MediaStorage

  const FADE_OUT_STEP: real := 1.0 / 200.0
  const FADE_IN_STEP: real := 1.0 / 250.0

  /** The bound one interruption obeys: it may raise the opacity by less than one fade-out step, or,
      when it reverses the transition, lower it by less than one fade-in step. */
  predicate Continues(before: real, after: real, reverses: bool) {
    if reverses then before - FADE_IN_STEP < after <= before
    else before <= after < before + FADE_OUT_STEP
  }

  lemma BackdatedFadeOut(visible: real)
    requires 0.0 <= visible <= 1.0
    ensures var e := TruncatedMs(1.0 - visible, FADE_OUT_MS);
            && e <= FADE_OUT_MS
            && visible <= 1.0 - Ratio(e, FADE_OUT_MS) < visible + FADE_OUT_STEP
            && (e == FADE_OUT_MS ==> visible == 0.0)
  {
    var x := (1.0 - visible) * 200.0;
    var e := TruncatedMs(1.0 - visible, FADE_OUT_MS);
    assert e as real <= x < e as real + 1.0;
  }

  lemma BackdatedFadeIn(visible: real)
    requires 0.0 <= visible <= 1.0
    ensures var e := TruncatedMs(visible, FADE_IN_MS);
            && e <= FADE_IN_MS
            && visible - FADE_IN_STEP < Ratio(e, FADE_IN_MS) <= visible
  {
    var x := visible * 250.0;
    var e := TruncatedMs(visible, FADE_IN_MS);
    assert e as real <= x < e as real + 1.0;
  }

  /** A fade-out under way shows whole milliseconds, so it is never fainter than one step. */
  lemma FadingOutIsVisible(v: Screen, nowMs: nat)
    requires FadeNow(v, nowMs).oldAlpha > 0.0
    ensures FadeNow(v, nowMs).oldAlpha >= FADE_OUT_STEP
  {
  }

  lemma CrossFadeContinues(v: Screen, root: string, nowMs: nat, cached: bool)
    requires nowMs >= FADE_OUT_MS
    ensures var w := CrossFadedScreen(v, root, nowMs, cached);
            && Continues(Visible(v, nowMs), Visible(w, nowMs), false)
            && (Visible(v, nowMs) > 0.0 ==> OutgoingShows(w, nowMs))
            && (Visible(v, nowMs) == 0.0 ==> Visible(w, nowMs) == 0.0)
            && w.outgoingRoot == (if OutgoingShows(v, nowMs) then v.outgoingRoot else v.shownRoot)
  {
    BackdatedFadeOut(Visible(v, nowMs));
    var w := CrossFadedScreen(v, root, nowMs, cached);
    var e := TruncatedMs(1.0 - Clamped(Visible(v, nowMs)), FADE_OUT_MS);
    assert w.transitionMs == nowMs - e;
    var s := FadeNow(w, nowMs);
    if e < FADE_OUT_MS {
      assert s.oldAlpha == 1.0 - Ratio(e, FADE_OUT_MS);
    } else {
      assert s.oldAlpha == 0.0 && s.newAlpha == 0.0;
    }
  }

  lemma ReversalContinues(v: Screen, root: string, nowMs: nat)
    requires nowMs >= FADE_OUT_MS + FADE_IN_MS && v.transitionActive && FadeNow(v, nowMs).oldAlpha > 0.0
    ensures var w := ReversedScreen(v, root, nowMs);
            && Continues(Visible(v, nowMs), Visible(w, nowMs), true)
            && !OutgoingShows(w, nowMs)
            && Visible(w, nowMs) > 0.0
  {
    FadingOutIsVisible(v, nowMs);
    var back := FadeNow(v, nowMs).oldAlpha;
    BackdatedFadeIn(back);
    var w := ReversedScreen(v, root, nowMs);
    var e := TruncatedMs(back, FADE_IN_MS);
    assert w.transitionMs == nowMs - e - FADE_OUT_MS && w.readyMs == nowMs - e;
    assert back * 250.0 >= 1.0;
    var s := FadeNow(w, nowMs);
    assert s.oldAlpha == 0.0 && s.newAlpha == Ratio(e, FADE_IN_MS);
  }

  /** Two backdrops a viewer cannot tell apart beyond the interruption's bound. */
  predicate Indistinct(a: Backdrop, b: Backdrop, reverses: bool) {
    match (a, b)
    case (Nothing, Nothing) => true
    case (Shows(r1, i1, x1), Shows(r2, i2, x2)) => r1 == r2 && i1 == i2 && Continues(x1, x2, reverses)
    case _ => false
  }

  /** Starting a load at any instant of any transition leaves the picture as it was. */
  lemma InterruptionIsContinuous(m: Media, root: string, nowMs: nat)
    requires LruMatchesCache(m.store) && nowMs >= FADE_OUT_MS && m.screen.lastUpdateMs == nowMs
    ensures Indistinct(BackdropOf(m), BackdropOf(StartLoad(m, root, nowMs)), Reverses(m, root, nowMs))
  {
    var n := StartLoad(m, root, nowMs);
    StartLoadOnlyReorders(m, root, nowMs);
    if Reverses(m, root, nowMs) {
      ReversalContinues(m.screen, root, nowMs);
      assert n.screen == ReversedScreen(m.screen, root, nowMs);
    } else {
      CrossFadeContinues(m.screen, root, nowMs, root in m.store.cache);
      assert n.screen == CrossFadedScreen(m.screen, root, nowMs, root in m.store.cache);
    }
  }

  // --- the rest of the frame -----------------------------------------------------------------------

  /** An asset becoming ready, or a transition ending, changes nothing at that instant. */
  lemma ReadyAndDoneAreInvisible(v: Screen, nowMs: nat)
    ensures Visible(MarkIncomingReady(v, nowMs), nowMs) == Visible(v, nowMs)
    ensures OutgoingShows(MarkIncomingReady(v, nowMs), nowMs) == OutgoingShows(v, nowMs)
  {
  }

  /** Everything after the focus was served: results, and a finished transition. */
  lemma ClaimingIsInvisible(m: Media, nowMs: nat, io: Io)
    requires m.screen.lastUpdateMs == nowMs
    ensures BackdropOf(FinishTransition(ClaimResult(m, nowMs, io), nowMs)) == BackdropOf(m)
    ensures FinishTransition(ClaimResult(m, nowMs, io), nowMs).store.cache == m.store.cache
  {
    var n := ClaimResult(m, nowMs, io);
    ClaimingOnlyMarks(m, nowMs, io);
    ReadyAndDoneAreInvisible(m.screen, nowMs);
    FinishingIsInvisible(n, nowMs);
  }

  lemma FinishingIsInvisible(m: Media, nowMs: nat)
    requires m.screen.lastUpdateMs == nowMs
    ensures BackdropOf(FinishTransition(m, nowMs)) == BackdropOf(m)
    ensures FinishTransition(m, nowMs).store == m.store
  {
  }

  lemma ApplyingOnlyMarks(m: Media, res: LoadResult, nowMs: nat, starts: bool)
    ensures var n := ApplyResult(m, res, nowMs, starts);
            && n.ready == m.ready && n.store.cache == m.store.cache
            && (n.screen == m.screen || n.screen == MarkIncomingReady(m.screen, nowMs))
  {
  }

  lemma ClaimingOnlyMarks(m: Media, nowMs: nat, io: Io)
    ensures var n := ClaimResult(m, nowMs, io);
            && n.ready == m.ready && n.store.cache == m.store.cache
            && (n.screen == m.screen || n.screen == MarkIncomingReady(m.screen, nowMs))
  {
    hide ApplyResult;
    var m0 := m.(loads := m.loads.(result := None));
    if m.loads.deferred.Some? {
      ApplyingOnlyMarks(m0.(loads := m0.loads.(deferred := None)), m.loads.deferred.value, nowMs, io.deferredStarts);
    }
    var m1 := RetryDeferred(m0, nowMs, io);
    if m.loads.result.Some? {
      ApplyingOnlyMarks(m1, m.loads.result.value, nowMs, io.resultStarts);
    }
  }

  lemma ServingFocusIsContinuous(m: Media, nowMs: nat)
    requires LruMatchesCache(m.store) && nowMs >= FADE_OUT_MS && m.screen.lastUpdateMs == nowMs
    ensures var a, b := BackdropOf(m), BackdropOf(ServeFocus(m, nowMs));
            a == b || Indistinct(a, b, Reverses(m, m.screen.focusRoot, nowMs))
    ensures var n := ServeFocus(m, nowMs);
            LruMatchesCache(n.store) && n.store == m.store.(lru := n.store.lru) && n.screen.lastUpdateMs == nowMs
  {
    var m1 := m.(screen := m.screen.(focusPending := false));
    if LoadDue(m.screen, nowMs) && m.screen.focusRoot != m.screen.shownRoot {
      InterruptionIsContinuous(m1, m.screen.focusRoot, nowMs);
      StartLoadOnlyReorders(m1, m.screen.focusRoot, nowMs);
      assert BackdropOf(m1) == BackdropOf(m);
    }
  }

  /** The upload a frame publishes shows where nothing was, hides what it evicts, or changes nothing. */
  predicate PublishedInto(a: Backdrop, b: Backdrop, m: Media, n: Media) {
    && m.store.pending.Some?
    && (|| (a.Nothing? && b.Shows? && b.root == m.store.pending.value.root)
        || (a.Shows? && b.Nothing? && a.root !in n.store.cache))
  }

  lemma PollingChangesOnlyByPublishing(m: Media, nowMs: nat, io: Io)
    requires LruMatchesCache(m.store) && PendingUncached(m.store) && m.screen.lastUpdateMs == nowMs
    ensures var n := PollUpload(m, nowMs, io);
            var a, b := BackdropOf(m), BackdropOf(n);
            a == b || (io.fenceSignalled && PublishedInto(a, b, m, n))
  {
    ReadyAndDoneAreInvisible(m.screen, nowMs);
    if m.store.pending.Some? && io.fenceSignalled {
      PublishingTouches(m.store, io);
    }
  }

  /** A whole frame. Besides the interruption's own bound, the picture can only change through the
      upload that the frame publishes: by arriving where nothing was shown, or by pushing the shown
      title out of the cache. */
  lemma FrameChangesOnlyByPublishing(m: Media, nowMs: nat, io: Io)
    requires LruMatchesCache(m.store) && PendingUncached(m.store)
    requires m.ready && nowMs >= FADE_OUT_MS
    ensures var before := BeginFrame(m, nowMs);
            var a, b := BackdropOf(before), BackdropOf(Update(m, nowMs, io));
            || a == b
            || Indistinct(a, b, Reverses(before, m.screen.focusRoot, nowMs))
            || (io.fenceSignalled && PublishedInto(a, b, m, Update(m, nowMs, io)))
  {
    var m1 := BeginFrame(m, nowMs);
    ServingFocusIsContinuous(m1, nowMs);
    var m2 := ServeFocus(m1, nowMs);
    PollingChangesOnlyByPublishing(m2, nowMs, io);
    var m3 := PollUpload(m2, nowMs, io);
    ClaimingIsInvisible(m3, nowMs, io);
  }

  lemma PublishingTouches(s: Storage, io: Io)
    requires LruMatchesCache(s) && PendingUncached(s) && s.pending.Some?
    ensures forall r :: r in Publish(s, io).cache && r != s.pending.value.root ==> r in s.cache && Publish(s, io).cache[r] == s.cache[r]
  {
    var p := s.pending.value;
    if io.viewCreated && s.budget.HasRoom() && io.setAdded {
      InsertFresh(s.(budget := s.budget.Taken()), p.root, p.image);
    }
  }

  // --- the picture over time -----------------------------------------------------------------------

  /** A running transition in its three parts: the old art falls over 200 milliseconds, nothing shows
      until the new art is there, and then it rises over 250. */
  lemma PictureOverTime(m: Media)
    requires m.ready && m.screen.transitionActive
    ensures var v, now := m.screen, m.screen.lastUpdateMs;
            var elapsed := if now > v.transitionMs then now - v.transitionMs else 0;
            var start := if v.readyMs > v.transitionMs + 200 then v.readyMs else v.transitionMs + 200;
            && (elapsed < 200 && v.outgoingRoot != "" && v.outgoingRoot in m.store.cache ==>
                  BackdropOf(m) == Shows(v.outgoingRoot, m.store.cache[v.outgoingRoot].image, 1.0 - Ratio(elapsed, 200)))
            && (elapsed >= 200 && (!v.incomingReady || now <= start) ==> BackdropOf(m) == Nothing)
            && (v.incomingReady && now > start && v.shownRoot != "" && v.shownRoot in m.store.cache ==>
                  BackdropOf(m) == Shows(v.shownRoot, m.store.cache[v.shownRoot].image,
                                         if now - start >= 250 then 1.0 else Ratio(now - start, 250)))
  {
  }

  lemma SettledPicture(m: Media)
    requires m.ready && !m.screen.transitionActive && m.screen.shownRoot != "" && m.screen.shownRoot in m.store.cache
    ensures BackdropOf(m) == Shows(m.screen.shownRoot, m.store.cache[m.screen.shownRoot].image, 1.0)
  {
  }

  /** Going back to a title whose art is still fading out never dips: from the interruption on its art
      only rises, until it is fully there. */
  lemma ReturnOnlyRises(m: Media, nowMs: nat, t1: nat, t2: nat)
    requires LruMatchesCache(m.store) && m.ready && m.screen.transitionActive && nowMs >= 450
    requires m.screen.outgoingRoot != "" && m.screen.outgoingRoot in m.store.cache
    requires m.screen.lastUpdateMs == nowMs && nowMs < m.screen.transitionMs + 200
    requires nowMs <= t1 <= t2
    ensures var root := m.screen.outgoingRoot;
            var n := StartLoad(m, root, nowMs);
            var a, b := BackdropOf(n.(screen := n.screen.(lastUpdateMs := t1))), BackdropOf(n.(screen := n.screen.(lastUpdateMs := t2)));
            && a.Shows? && b.Shows? && a.root == b.root == root && 0.0 < a.alpha <= b.alpha
            && (t2 >= nowMs + 250 ==> b.alpha == 1.0)
  {
    var root := m.screen.outgoingRoot;
    StartLoadOnlyReorders(m, root, nowMs);
    assert FadeNow(m.screen, nowMs).oldAlpha > 0.0;
    assert Reverses(m.(loads := m.loads.(generation := m.loads.generation + 1, started := m.loads.started + 1)), root, nowMs);
    var n := StartLoad(m, root, nowMs);
    FadingOutIsVisible(m.screen, nowMs);
    BackdatedFadeIn(FadeNow(m.screen, nowMs).oldAlpha);
    var e := TruncatedMs(FadeNow(m.screen, nowMs).oldAlpha, FADE_IN_MS);
    assert n.screen == ReversedScreen(m.screen, root, nowMs);
    assert n.screen.readyMs == nowMs - e && n.screen.transitionMs + 200 == nowMs - e && e > 0;
    PictureOverTime(n.(screen := n.screen.(lastUpdateMs := t1)));
    PictureOverTime(n.(screen := n.screen.(lastUpdateMs := t2)));
  }
}

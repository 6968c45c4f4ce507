/** Where the images and the descriptor sets are: every image ever created is destroyed or held in
    exactly one place, the shared counter is exact, and the background layer never holds more than six
    sets. `others` stands for whatever else draws on the same pool: the covers. */
module MediaStorage {
  import opened Wrappers
  import opened LaunchPolicy
  import opened DescriptorBudget
  import opened MediaState

  const MAX_BACKGROUND_SETS: nat := 6

  function RetiredImages(retired: seq<Retired>): set<nat> {
    set i | 0 <= i < |retired| :: retired[i].image
  }

  /** The recency order lists exactly the cached titles, once each, and at most three. */
  ghost predicate LruMatchesCache(s: Storage) {
    && NoDuplicates(s.lru)
    && |s.lru| <= BACKGROUND_CACHE_CAPACITY
    && forall r :: r in s.lru <==> r in s.cache
  }

  predicate FramesIncrease(retired: seq<Retired>) {
    forall i, j :: 0 <= i < j < |retired| ==> retired[i].frame < retired[j].frame
  }

  /** At most one background was retired per frame, and none so long ago that it is due. */
  predicate RetireWindow(s: Storage) {
    && FramesIncrease(s.retired)
    && forall i :: 0 <= i < |s.retired| ==> s.retired[i].frame <= s.frameCounter < s.retired[i].frame + RETIRE_FRAMES
  }

  predicate CacheApart(cache: map<string, Background>) {
    forall r1, r2 :: r1 in cache && r2 in cache && r1 != r2 ==> cache[r1].image != cache[r2].image
  }

  predicate RetiredApart(retired: seq<Retired>) {
    forall i, j :: 0 <= i < j < |retired| ==> retired[i].image != retired[j].image
  }

  function In(images: set<nat>, i: nat): nat {
    if i in images then 1 else 0
  }

  /** In how many places image `i` is. */
  function Places(gpu: Gpu, cached: set<nat>, retired: set<nat>, uploading: set<nat>, others: set<nat>, i: nat): nat {
    In(gpu.destroyed, i) + In(cached, i) + In(retired, i) + In(uploading, i) + In(others, i)
  }

  /** Every image created is in exactly one place, destroyed included; no other image is anywhere. */
  ghost predicate Books(gpu: Gpu, cached: set<nat>, retired: set<nat>, uploading: set<nat>, others: set<nat>) {
    forall i: nat :: Places(gpu, cached, retired, uploading, others, i) == if i < gpu.nextImage then 1 else 0
  }

  ghost predicate ImagesInOnePlace(s: Storage, others: set<nat>) {
    && CacheApart(s.cache)
    && RetiredApart(s.retired)
    && Books(s.gpu, CachedImages(s.cache), RetiredImages(s.retired), PendingImage(s.pending), others)
  }

  predicate PendingUncached(s: Storage) {
    s.pending.Some? ==> s.pending.value.root !in s.cache
  }

  predicate SetsCounted(s: Storage, others: set<nat>) {
    s.budget.used == |s.cache| + |s.retired| + |others|
  }

  ghost predicate StorageInv(s: Storage, others: set<nat>) {
    && LruMatchesCache(s)
    && RetireWindow(s)
    && PendingUncached(s)
    && ImagesInOnePlace(s, others)
    && SetsCounted(s, others)
  }

  lemma OnePlaceOnly(s: Storage, others: set<nat>, i: nat)
    requires ImagesInOnePlace(s, others)
    ensures Places(s.gpu, CachedImages(s.cache), RetiredImages(s.retired), PendingImage(s.pending), others, i)
         == if i < s.gpu.nextImage then 1 else 0
  {
  }

  // --- book-keeping on plain sets ------------------------------------------------------------------

  lemma RetiredDestroyed(gpu: Gpu, c: set<nat>, r: set<nat>, p: set<nat>, o: set<nat>, gone: set<nat>)
    requires Books(gpu, c, r, p, o) && gone <= r
    ensures Books(Destroyed(gpu, gone), c, r - gone, p, o)
  {
    forall i: nat ensures Places(Destroyed(gpu, gone), c, r - gone, p, o, i) == if i < gpu.nextImage then 1 else 0 {
      assert Places(gpu, c, r, p, o, i) == if i < gpu.nextImage then 1 else 0;
    }
  }

  lemma CachedDestroyed(gpu: Gpu, c: set<nat>, r: set<nat>, p: set<nat>, o: set<nat>)
    requires Books(gpu, c, r, p, o)
    ensures Books(Destroyed(gpu, c), {}, r, p, o)
  {
    forall i: nat ensures Places(Destroyed(gpu, c), {}, r, p, o, i) == if i < gpu.nextImage then 1 else 0 {
      assert Places(gpu, c, r, p, o, i) == if i < gpu.nextImage then 1 else 0;
    }
  }

  lemma UploadDestroyed(gpu: Gpu, c: set<nat>, r: set<nat>, p: set<nat>, o: set<nat>)
    requires Books(gpu, c, r, p, o)
    ensures Books(Destroyed(gpu, p), c, r, {}, o)
  {
    forall i: nat ensures Places(Destroyed(gpu, p), c, r, {}, o, i) == if i < gpu.nextImage then 1 else 0 {
      assert Places(gpu, c, r, p, o, i) == if i < gpu.nextImage then 1 else 0;
    }
  }

  lemma UploadPublished(gpu: Gpu, c: set<nat>, r: set<nat>, p: set<nat>, o: set<nat>)
    requires Books(gpu, c, r, p, o)
    ensures Books(gpu, c + p, r, {}, o)
  {
    forall i: nat ensures Places(gpu, c + p, r, {}, o, i) == if i < gpu.nextImage then 1 else 0 {
      assert Places(gpu, c, r, p, o, i) == if i < gpu.nextImage then 1 else 0;
    }
  }

  lemma CachedRetired(gpu: Gpu, c: set<nat>, r: set<nat>, p: set<nat>, o: set<nat>, x: nat)
    requires Books(gpu, c, r, p, o) && x in c
    ensures Books(gpu, c - {x}, r + {x}, p, o) && x !in r
  {
    forall i: nat ensures Places(gpu, c - {x}, r + {x}, p, o, i) == if i < gpu.nextImage then 1 else 0 {
      assert Places(gpu, c, r, p, o, i) == if i < gpu.nextImage then 1 else 0;
    }
    assert Places(gpu, c, r, p, o, x) == if x < gpu.nextImage then 1 else 0;
  }

  lemma ImageCreated(gpu: Gpu, c: set<nat>, r: set<nat>, p: set<nat>, o: set<nat>)
    requires Books(gpu, c, r, p, o)
    ensures Books(gpu.(nextImage := gpu.nextImage + 1), c, r, p + {gpu.nextImage}, o)
    ensures Books(gpu.(nextImage := gpu.nextImage + 1), c, r, p, o + {gpu.nextImage})
    ensures gpu.nextImage !in o
  {
    var next := gpu.(nextImage := gpu.nextImage + 1);
    forall i: nat ensures Places(next, c, r, p + {gpu.nextImage}, o, i) == if i < next.nextImage then 1 else 0 {
      assert Places(gpu, c, r, p, o, i) == if i < gpu.nextImage then 1 else 0;
    }
    forall i: nat ensures Places(next, c, r, p, o + {gpu.nextImage}, i) == if i < next.nextImage then 1 else 0 {
      assert Places(gpu, c, r, p, o, i) == if i < gpu.nextImage then 1 else 0;
    }
    assert Places(gpu, c, r, p, o, gpu.nextImage) == 0;
  }

  // --- touching ------------------------------------------------------------------------------------

  lemma TouchingCachedOnlyReorders(s: Storage, root: string)
    requires LruMatchesCache(s) && root in s.cache
    ensures TouchLru(s, root) == s.(lru := LruTouch(s.lru, root, BACKGROUND_CACHE_CAPACITY).order)
    ensures LruMatchesCache(TouchLru(s, root))
  {
    TouchingResidentEvictsNothing(s.lru, root, BACKGROUND_CACHE_CAPACITY);
    TouchPartitions(s.lru, root, BACKGROUND_CACHE_CAPACITY);
  }

  /** However a load interrupts the view, it neither evicts, creates nor destroys anything. */
  lemma StartLoadOnlyReorders(m: Media, root: string, nowMs: nat)
    requires LruMatchesCache(m.store)
    ensures var s := StartLoad(m, root, nowMs).store; s == m.store.(lru := s.lru) && LruMatchesCache(s)
  {
    if root in m.store.cache {
      TouchingCachedOnlyReorders(m.store, root);
    }
  }

  lemma ReorderingKeepsInv(s: Storage, t: Storage, others: set<nat>)
    requires StorageInv(s, others) && t == s.(lru := t.lru) && LruMatchesCache(t)
    ensures StorageInv(t, others)
  {
  }

  // --- retiring and collecting ---------------------------------------------------------------------

  lemma {:induction false} KeptIsSuffix(retired: seq<Retired>, frameCounter: nat, force: bool) returns (k: nat)
    requires FramesIncrease(retired)
    ensures k <= |retired|
    ensures Kept(retired, frameCounter, force) == retired[k..]
    ensures forall i :: 0 <= i < |retired| ==> (Expired(retired[i], frameCounter, force) <==> i < k)
  {
    if retired == [] {
      k := 0;
    } else {
      var rest := retired[1..];
      var k1 := KeptIsSuffix(rest, frameCounter, force);
      assert forall i :: 0 < i < |retired| ==> retired[i] == rest[i - 1];
      if Expired(retired[0], frameCounter, force) {
        k := k1 + 1;
      } else {
        k := 0;
        assert |rest| > 0 ==> !Expired(rest[0], frameCounter, force);
        assert rest[k1..] == rest;
      }
    }
  }

  lemma SplitImages(retired: seq<Retired>, k: nat)
    requires RetiredApart(retired) && k <= |retired|
    ensures RetiredImages(retired) == RetiredImages(retired[..k]) + RetiredImages(retired[k..])
    ensures RetiredImages(retired[..k]) !! RetiredImages(retired[k..])
    ensures RetiredApart(retired[k..])
  {
    var a, b := retired[..k], retired[k..];
    assert forall i :: 0 <= i < k ==> a[i] == retired[i];
    assert forall i :: 0 <= i < |b| ==> b[i] == retired[k + i];
    forall x | x in RetiredImages(retired) ensures x in RetiredImages(a) + RetiredImages(b) {
      var i :| 0 <= i < |retired| && retired[i].image == x;
      if i < k {
        assert a[i].image == x;
      } else {
        assert b[i - k].image == x;
      }
    }
  }

  /** What collecting does once the retire list is in frame order: a prefix goes. */
  lemma CollectTakesPrefix(s: Storage, force: bool) returns (k: nat)
    requires FramesIncrease(s.retired)
    ensures k <= |s.retired|
    ensures CollectRetired(s, force)
         == s.(retired := s.retired[k..], budget := s.budget.Released(k),
               gpu := Destroyed(s.gpu, RetiredImages(s.retired[..k])))
    ensures forall i :: 0 <= i < |s.retired| ==> (Expired(s.retired[i], s.frameCounter, force) <==> i < k)
  {
    k := KeptIsSuffix(s.retired, s.frameCounter, force);
    var a := ExpiredImages(s.retired, s.frameCounter, force);
    var b := RetiredImages(s.retired[..k]);
    forall x | x in a ensures x in b {
      var i :| 0 <= i < |s.retired| && Expired(s.retired[i], s.frameCounter, force) && s.retired[i].image == x;
      assert s.retired[..k][i].image == x;
    }
    forall x | x in b ensures x in a {
      var i :| 0 <= i < k && s.retired[..k][i].image == x;
      assert Expired(s.retired[i], s.frameCounter, force) && s.retired[i].image == x;
    }
    assert a == b;
  }

  /** Everything StorageInv says except that nothing retired is due yet. */
  ghost predicate BeforeCollecting(s: Storage, others: set<nat>) {
    && LruMatchesCache(s)
    && FramesIncrease(s.retired)
    && (forall i :: 0 <= i < |s.retired| ==> s.retired[i].frame <= s.frameCounter)
    && PendingUncached(s)
    && ImagesInOnePlace(s, others)
    && SetsCounted(s, others)
  }

  /** What is due goes, with its set, and nothing else. */
  lemma CollectsTheDue(s: Storage, others: set<nat>, force: bool)
    requires FramesIncrease(s.retired) && ImagesInOnePlace(s, others) && s.budget.used >= |s.retired|
    ensures var t := CollectRetired(s, force);
            && (forall r :: r in t.retired <==> r in s.retired && !Expired(r, s.frameCounter, force))
            && (forall i :: 0 <= i < |s.retired| ==>
                  (s.retired[i].image in t.gpu.destroyed <==> Expired(s.retired[i], s.frameCounter, force)))
            && t.budget.used + (|s.retired| - |t.retired|) == s.budget.used
  {
    var k := CollectTakesPrefix(s, force);
    var t := CollectRetired(s, force);
    hide CollectRetired, Books, CacheApart;
    assert s.retired == s.retired[..k] + t.retired;
    assert forall i :: 0 <= i < |t.retired| ==> t.retired[i] == s.retired[k + i];
    forall i | 0 <= i < |s.retired|
      ensures s.retired[i].image in t.gpu.destroyed <==> Expired(s.retired[i], s.frameCounter, force)
    {
      RetiredAreNotDestroyed(s, others, i);
      PrefixHoldsImage(s.retired, k, i);
    }
  }

  lemma PrefixHoldsImage(retired: seq<Retired>, k: nat, i: nat)
    requires RetiredApart(retired) && k <= |retired| && i < |retired|
    ensures retired[i].image in RetiredImages(retired[..k]) <==> i < k
  {
    if i < k {
      assert retired[..k][i] == retired[i];
    }
  }

  /** Exactly what is due goes, with its set, and every image stays in exactly one place. */
  lemma CollectKeepsInv(s: Storage, others: set<nat>, force: bool)
    requires BeforeCollecting(s, others)
    ensures var t := CollectRetired(s, force);
            && StorageInv(t, others)
            && (forall r :: r in t.retired <==> r in s.retired && !Expired(r, s.frameCounter, force))
            && (forall i :: 0 <= i < |s.retired| ==>
                  (s.retired[i].image in t.gpu.destroyed <==> Expired(s.retired[i], s.frameCounter, force)))
            && t.budget.used + (|s.retired| - |t.retired|) == s.budget.used
            && (force ==> t.retired == [])
            && (forall i :: 0 <= i < |t.retired| ==> t.retired[i] in s.retired)
            && s.gpu.destroyed <= t.gpu.destroyed <= s.gpu.destroyed + RetiredImages(s.retired)
  {
    CollectsTheDue(s, others, force);
    CollectBooks(s, others, force);
  }

  lemma CollectBooks(s: Storage, others: set<nat>, force: bool)
    requires BeforeCollecting(s, others)
    ensures var t := CollectRetired(s, force);
            && StorageInv(t, others)
            && (force ==> t.retired == [])
            && (forall i :: 0 <= i < |t.retired| ==> t.retired[i] in s.retired)
            && s.gpu.destroyed <= t.gpu.destroyed <= s.gpu.destroyed + RetiredImages(s.retired)
  {
    var k := CollectTakesPrefix(s, force);
    var t := CollectRetired(s, force);
    SplitImages(s.retired, k);
    assert forall i :: 0 <= i < |t.retired| ==> t.retired[i] == s.retired[k + i];
    assert k < |s.retired| ==> !Expired(s.retired[k], s.frameCounter, force);
    assert RetireWindow(t);
    var gone := RetiredImages(s.retired[..k]);
    RetiredDestroyed(s.gpu, CachedImages(s.cache), RetiredImages(s.retired), PendingImage(s.pending), others, gone);
    assert RetiredImages(t.retired) == RetiredImages(s.retired) - gone;
  }

  lemma RetiredAreNotDestroyed(s: Storage, others: set<nat>, i: nat)
    requires ImagesInOnePlace(s, others) && i < |s.retired|
    ensures s.retired[i].image !in s.gpu.destroyed
  {
    assert s.retired[i].image in RetiredImages(s.retired);
    OnePlaceOnly(s, others, s.retired[i].image);
  }

  /** A background retired in one frame outlives the next two and goes in the third. */
  lemma RetiredForThreeFrames(s: Storage, image: nat, frames: nat)
    requires s.retired == [Retired(image, s.frameCounter)] && image !in s.gpu.destroyed
    ensures var t := CollectRetired(s.(frameCounter := s.frameCounter + frames), false);
            image in t.gpu.destroyed <==> frames >= 3
  {
    var later := s.(frameCounter := s.frameCounter + frames);
    assert s.retired[0].image == image;
    assert forall x :: x in ExpiredImages(later.retired, later.frameCounter, false) <==> x == image && frames >= 3;
  }

  lemma {:induction false} FramesSpread(retired: seq<Retired>)
    requires FramesIncrease(retired)
    ensures retired != [] ==> retired[|retired| - 1].frame >= retired[0].frame + |retired| - 1
  {
    if |retired| > 1 {
      var init := retired[..|retired| - 1];
      FramesSpread(init);
      assert init[|init| - 1] == retired[|retired| - 2];
    }
  }

  lemma RetireWindowIsSmall(s: Storage)
    requires RetireWindow(s)
    ensures |s.retired| <= RETIRE_FRAMES
  {
    FramesSpread(s.retired);
  }

  lemma {:induction false} DistinctLength(order: seq<string>, keys: set<string>)
    requires NoDuplicates(order) && forall r :: r in order <==> r in keys
    ensures |keys| == |order|
  {
    if order == [] {
      assert keys == {};
    } else {
      var rest := keys - {order[0]};
      assert order == [order[0]] + order[1..];
      assert forall i :: 0 < i < |order| ==> order[i] != order[0];
      DistinctLength(order[1..], rest);
    }
  }

  /** The peak: three cached and three retired. */
  lemma SixSetsAtMost(s: Storage, others: set<nat>)
    requires StorageInv(s, others)
    ensures |s.cache| + |s.retired| <= MAX_BACKGROUND_SETS <= BACKGROUND_SETS
    ensures s.budget.used <= |others| + MAX_BACKGROUND_SETS
  {
    RetireWindowIsSmall(s);
    DistinctLength(s.lru, s.cache.Keys);
  }

  // --- publishing ----------------------------------------------------------------------------------

  /** Publishing an upload for a title that is not cached retires at most one background: the oldest,
      and only when three were already resident. */
  lemma InsertFresh(s: Storage, root: string, image: nat)
    requires LruMatchesCache(s) && root !in s.cache
    ensures var t := InsertBackground(s, root, image);
            && LruMatchesCache(t)
            && t == s.(lru := t.lru, cache := t.cache, retired := t.retired)
            && (if |s.lru| < BACKGROUND_CACHE_CAPACITY
                then t.cache == s.cache[root := Background(image)] && t.retired == s.retired
                else && t.cache == s.cache[root := Background(image)] - {s.lru[0]}
                     && t.retired == s.retired + [Retired(s.cache[s.lru[0]].image, s.frameCounter)])
  {
    var s1 := s.(cache := s.cache[root := Background(image)]);
    var t := LruTouch(s.lru, root, BACKGROUND_CACHE_CAPACITY);
    TouchPartitions(s.lru, root, BACKGROUND_CACHE_CAPACITY);
    var n := InsertBackground(s, root, image);
    assert n == RetireEvicted(s1.(lru := t.order), t.evicted);
    if |s.lru| < BACKGROUND_CACHE_CAPACITY {
      WithoutAbsent(s.lru, root);
      assert |t.evicted + t.order| == |s.lru| + 1;
      assert t.evicted == [];
    } else {
      TouchingNewcomerEvictsOldest(s.lru, root, BACKGROUND_CACHE_CAPACITY);
      var gone := s.lru[0];
      assert t.evicted == [gone] && t.evicted[1..] == [];
      assert gone in s.cache && gone != root;
      var s2 := s1.(lru := t.order,
                    retired := s.retired + [Retired(s.cache[gone].image, s.frameCounter)],
                    cache := s1.cache - {gone});
      assert n == RetireEvicted(s2, []) == s2;
      forall r ensures r in n.lru <==> r in n.cache {
        assert r in t.order || r in t.evicted <==> r in s.lru || r == root;
      }
    }
  }

  ghost predicate NothingRetiredYet(s: Storage) {
    forall i :: 0 <= i < |s.retired| ==> s.retired[i].frame < s.frameCounter
  }

  lemma PublishKeepsInv(s: Storage, others: set<nat>, io: Io)
    requires StorageInv(s, others) && s.pending.Some? && NothingRetiredYet(s)
    ensures StorageInv(Publish(s, io), others)
    ensures s.gpu.destroyed <= Publish(s, io).gpu.destroyed <= s.gpu.destroyed + PendingImage(s.pending)
  {
    var p := s.pending.value;
    if io.viewCreated && s.budget.HasRoom() && io.setAdded {
      var s1 := s.(budget := s.budget.Taken());
      InsertFresh(s1, p.root, p.image);
      if |s.lru| < BACKGROUND_CACHE_CAPACITY {
        PublishedIntoRoom(s, others, Publish(s, io));
      } else {
        PublishedByEvicting(s, others, Publish(s, io));
      }
    } else {
      UploadDestroyed(s.gpu, CachedImages(s.cache), RetiredImages(s.retired), PendingImage(s.pending), others);
    }
  }

  lemma CachedImagesGrow(cache: map<string, Background>, root: string, image: nat)
    requires root !in cache && CacheApart(cache) && image !in CachedImages(cache)
    ensures CachedImages(cache[root := Background(image)]) == CachedImages(cache) + {image}
    ensures CacheApart(cache[root := Background(image)])
    ensures |cache[root := Background(image)]| == |cache| + 1
  {
    var grown := cache[root := Background(image)];
    forall x | x in CachedImages(cache) + {image} ensures x in CachedImages(grown) {
      if x == image {
        assert grown[root].image == x;
      } else {
        var r :| r in cache && cache[r].image == x;
        assert grown[r].image == x;
      }
    }
    assert forall r :: r in cache ==> cache[r].image in CachedImages(cache);
  }

  lemma CachedImagesShrink(cache: map<string, Background>, root: string)
    requires root in cache && CacheApart(cache)
    ensures CachedImages(cache - {root}) == CachedImages(cache) - {cache[root].image}
    ensures CacheApart(cache - {root})
    ensures |cache - {root}| == |cache| - 1
  {
    var shrunk := cache - {root};
    forall x | x in CachedImages(cache) - {cache[root].image} ensures x in CachedImages(shrunk) {
      var r :| r in cache && cache[r].image == x;
      assert shrunk[r].image == x;
    }
    assert shrunk.Keys == cache.Keys - {root};
  }

  lemma RetiredImagesGrow(retired: seq<Retired>, r: Retired)
    requires RetiredApart(retired) && r.image !in RetiredImages(retired)
    ensures RetiredImages(retired + [r]) == RetiredImages(retired) + {r.image}
    ensures RetiredApart(retired + [r])
  {
    var grown := retired + [r];
    forall x | x in RetiredImages(retired) + {r.image} ensures x in RetiredImages(grown) {
      if x == r.image {
        assert grown[|retired|].image == x;
      } else {
        var i :| 0 <= i < |retired| && retired[i].image == x;
        assert grown[i].image == x;
      }
    }
    assert forall i :: 0 <= i < |retired| ==> retired[i].image in RetiredImages(retired);
  }

  lemma PublishedIntoRoom(s: Storage, others: set<nat>, t: Storage)
    requires StorageInv(s, others) && s.pending.Some?
    requires t == s.(lru := t.lru, cache := s.cache[s.pending.value.root := Background(s.pending.value.image)],
                     pending := None, budget := s.budget.Taken())
    requires LruMatchesCache(t)
    ensures StorageInv(t, others)
  {
    OnePlaceOnly(s, others, s.pending.value.image);
    CachedImagesGrow(s.cache, s.pending.value.root, s.pending.value.image);
    UploadPublished(s.gpu, CachedImages(s.cache), RetiredImages(s.retired), PendingImage(s.pending), others);
  }

  lemma PublishedByEvicting(s: Storage, others: set<nat>, t: Storage)
    requires StorageInv(s, others) && s.pending.Some? && NothingRetiredYet(s) && s.lru != []
    requires t == s.(lru := t.lru,
                     cache := s.cache[s.pending.value.root := Background(s.pending.value.image)] - {s.lru[0]},
                     retired := s.retired + [Retired(s.cache[s.lru[0]].image, s.frameCounter)],
                     pending := None, budget := s.budget.Taken())
    requires LruMatchesCache(t)
    ensures StorageInv(t, others)
  {
    var p, gone := s.pending.value, s.lru[0];
    var x := s.cache[gone].image;
    OnePlaceOnly(s, others, p.image);
    CachedImagesGrow(s.cache, p.root, p.image);
    var grown := s.cache[p.root := Background(p.image)];
    UploadPublished(s.gpu, CachedImages(s.cache), RetiredImages(s.retired), PendingImage(s.pending), others);
    assert grown[gone].image == x;
    CachedImagesShrink(grown, gone);
    CachedRetired(s.gpu, CachedImages(grown), RetiredImages(s.retired), {}, others, x);
    RetiredImagesGrow(s.retired, Retired(x, s.frameCounter));
    assert RetireWindow(t);
  }

  // --- steps ---------------------------------------------------------------------------------------

  lemma BeginUploadKeepsInv(s: Storage, others: set<nat>, root: string)
    requires StorageInv(s, others) && s.pending.None? && root !in s.cache
    ensures StorageInv(BeginUpload(s, root), others)
  {
    UploadTakesNewImage(s, others, root);
    hide ImagesInOnePlace, NoDuplicates, FramesIncrease;
  }

  lemma UploadTakesNewImage(s: Storage, others: set<nat>, root: string)
    requires ImagesInOnePlace(s, others) && s.pending.None?
    ensures ImagesInOnePlace(BeginUpload(s, root), others)
  {
    ImageCreated(s.gpu, CachedImages(s.cache), RetiredImages(s.retired), {}, others);
    hide Books;
    assert PendingImage(BeginUpload(s, root).pending) == {} + {s.gpu.nextImage};
  }

  lemma ApplyResultKeepsStorage(m: Media, others: set<nat>, res: LoadResult, nowMs: nat, starts: bool)
    requires StorageInv(m.store, others)
    ensures var s := ApplyResult(m, res, nowMs, starts).store;
            StorageInv(s, others) && s.cache == m.store.cache && s.gpu.destroyed == m.store.gpu.destroyed
  {
    if m.store.pending.None? && res.root !in m.store.cache {
      BeginUploadKeepsInv(m.store, others, res.root);
    }
  }

  lemma ClaimResultKeepsStorage(m: Media, others: set<nat>, nowMs: nat, io: Io)
    requires StorageInv(m.store, others)
    ensures var s := ClaimResult(m, nowMs, io).store;
            StorageInv(s, others) && s.cache == m.store.cache && s.gpu.destroyed == m.store.gpu.destroyed
  {
    var m1 := m.(loads := m.loads.(result := None));
    if m.loads.deferred.Some? {
      ApplyResultKeepsStorage(m1.(loads := m1.loads.(deferred := None)), others, m.loads.deferred.value, nowMs, io.deferredStarts);
    }
    var m2 := RetryDeferred(m1, nowMs, io);
    if m.loads.result.Some? {
      ApplyResultKeepsStorage(m2, others, m.loads.result.value, nowMs, io.resultStarts);
    }
  }

  lemma BeginFrameKeepsInv(s: Storage, others: set<nat>)
    requires StorageInv(s, others)
    ensures var t := BeginFrameStorage(s);
            && StorageInv(t, others) && NothingRetiredYet(t)
            && t.cache == s.cache && t.pending == s.pending
            && s.gpu.destroyed <= t.gpu.destroyed <= s.gpu.destroyed + RetiredImages(s.retired)
  {
    var s1 := s.(frameCounter := s.frameCounter + 1);
    CollectKeepsInv(s1, others, false);
    var t := BeginFrameStorage(s);
    forall i | 0 <= i < |t.retired| ensures t.retired[i].frame < t.frameCounter {
      assert t.retired[i] in s.retired;
    }
  }

  /** A whole frame, through every branch. It destroys nothing that was cached when it began, so no
      frame already submitted can be sampling what it destroys. */
  lemma UpdateKeepsStorage(m: Media, others: set<nat>, nowMs: nat, io: Io)
    requires StorageInv(m.store, others)
    ensures var s := Update(m, nowMs, io).store;
            && StorageInv(s, others)
            && m.store.gpu.destroyed <= s.gpu.destroyed
            && s.gpu.destroyed <= m.store.gpu.destroyed + RetiredImages(m.store.retired) + PendingImage(m.store.pending)
            && s.gpu.destroyed !! CachedImages(m.store.cache)
  {
    if m.ready {
      BeginFrameKeepsInv(m.store, others);
      var m1 := BeginFrame(m, nowMs);
      var m2 := ServeFocus(m1, nowMs);
      ServingOnlyReorders(m1, others, nowMs);
      if m2.store.pending.Some? {
        PublishKeepsInv(m2.store, others, io);
      }
      ClaimResultKeepsStorage(PollUpload(m2, nowMs, io), others, nowMs, io);
      var m3 := PollUpload(m2, nowMs, io);
      assert m3.store.gpu.destroyed <= m2.store.gpu.destroyed + PendingImage(m.store.pending);
      assert Update(m, nowMs, io).store.gpu.destroyed == m3.store.gpu.destroyed;
    }
    CachedAreNotGoing(m.store, others);
  }

  lemma ServingOnlyReorders(m: Media, others: set<nat>, nowMs: nat)
    requires StorageInv(m.store, others)
    ensures var n := ServeFocus(m, nowMs);
            StorageInv(n.store, others) && n.store == m.store.(lru := n.store.lru)
  {
    if LoadDue(m.screen, nowMs) && m.screen.focusRoot != m.screen.shownRoot {
      var m1 := m.(screen := m.screen.(focusPending := false));
      StartLoadOnlyReorders(m1, m.screen.focusRoot, nowMs);
      ReorderingKeepsInv(m.store, ServeFocus(m, nowMs).store, others);
    }
  }

  lemma CachedAreNotGoing(s: Storage, others: set<nat>)
    requires StorageInv(s, others)
    ensures forall x :: x in CachedImages(s.cache) ==> x !in s.gpu.destroyed + RetiredImages(s.retired) + PendingImage(s.pending)
  {
    forall x | x in CachedImages(s.cache) ensures x !in s.gpu.destroyed + RetiredImages(s.retired) + PendingImage(s.pending) {
      OnePlaceOnly(s, others, x);
    }
  }

  /** After a release this layer holds nothing: every image it had is destroyed, every set returned. */
  lemma ReleaseEmpties(s: Storage, others: set<nat>)
    requires StorageInv(s, others)
    ensures var t := ReleaseStorage(s);
            && StorageInv(t, others)
            && t.cache == map[] && t.retired == [] && t.pending.None?
            && t.budget == s.budget.(used := |others|)
            && t.gpu == Destroyed(s.gpu, CachedImages(s.cache) + RetiredImages(s.retired) + PendingImage(s.pending))
  {
    ReleaseKeepsInv(s, others);
    hide StorageInv, ReleaseStorage;
    ReleaseDestroysAll(s, others);
  }

  lemma ReleaseKeepsInv(s: Storage, others: set<nat>)
    requires StorageInv(s, others)
    ensures StorageInv(ReleaseStorage(s), others)
    ensures ReleaseStorage(s).budget == s.budget.(used := |others|)
  {
    DroppingKeepsBooks(s, others);
    ForcedCollection(DropPending(s), others);
    EmptyingKeepsInv(CollectRetired(DropPending(s), true), others);
  }

  lemma ReleaseDestroysAll(s: Storage, others: set<nat>)
    requires StorageInv(s, others)
    ensures var t := ReleaseStorage(s);
            && t.cache == map[] && t.retired == [] && t.pending.None?
            && t.gpu == Destroyed(s.gpu, CachedImages(s.cache) + RetiredImages(s.retired) + PendingImage(s.pending))
  {
    hide StorageInv, BeforeCollecting, CollectRetired, CachedImages, RetiredImages, PendingImage;
    var c, r, p := CachedImages(s.cache), RetiredImages(s.retired), PendingImage(s.pending);
    DroppingKeepsBooks(s, others);
    ForcedCollection(DropPending(s), others);
    assert s.gpu.destroyed + p + r + c == s.gpu.destroyed + (c + r + p);
  }

  lemma DroppingKeepsBooks(s: Storage, others: set<nat>)
    requires StorageInv(s, others)
    ensures BeforeCollecting(DropPending(s), others)
  {
    UploadDestroyed(s.gpu, CachedImages(s.cache), RetiredImages(s.retired), PendingImage(s.pending), others);
  }

  lemma ForcedCollection(s: Storage, others: set<nat>)
    requires BeforeCollecting(s, others)
    ensures var t := CollectRetired(s, true);
            && StorageInv(t, others) && t.retired == []
            && t == s.(retired := [], budget := t.budget, gpu := Destroyed(s.gpu, RetiredImages(s.retired)))
            && t.budget == s.budget.(used := t.budget.used)
  {
    CollectBooks(s, others, true);
    var k := CollectTakesPrefix(s, true);
    assert k < |s.retired| ==> !Expired(s.retired[k], s.frameCounter, true);
    assert s.retired[..k] == s.retired;
  }

  lemma EmptyingKeepsInv(s: Storage, others: set<nat>)
    requires StorageInv(s, others) && s.pending.None? && s.retired == []
    ensures StorageInv(DestroyAllBackgrounds(s), others)
    ensures DestroyAllBackgrounds(s).budget == s.budget.(used := |others|)
  {
    CachedDestroyed(s.gpu, CachedImages(s.cache), RetiredImages(s.retired), PendingImage(s.pending), others);
    assert CachedImages(map[]) == {};
  }

  // --- the counter never passes the capacity -------------------------------------------------------

  lemma ClaimingKeepsCapacity(m: Media, nowMs: nat, io: Io)
    ensures ClaimResult(m, nowMs, io).store.budget == m.store.budget
  {
  }

  lemma {:induction false} EvictingKeepsCapacity(s: Storage, gone: seq<string>)
    ensures RetireEvicted(s, gone).budget == s.budget
    decreases |gone|
  {
    if gone != [] {
      if gone[0] in s.cache {
        EvictingKeepsCapacity(s.(retired := s.retired + [Retired(s.cache[gone[0]].image, s.frameCounter)],
                                 cache := s.cache - {gone[0]}), gone[1..]);
      } else {
        EvictingKeepsCapacity(s, gone[1..]);
      }
    }
  }

  lemma TouchingKeepsBudget(s: Storage, root: string)
    ensures TouchLru(s, root).budget == s.budget
  {
    var t := LruTouch(s.lru, root, BACKGROUND_CACHE_CAPACITY);
    EvictingKeepsCapacity(s.(lru := t.order), t.evicted);
  }

  lemma CapacityUntouched(m: Media, nowMs: nat, io: Io)
    ensures Update(m, nowMs, io).store.budget.capacity == m.store.budget.capacity
  {
    if m.ready {
      var m1 := BeginFrame(m, nowMs);
      ServingKeepsBudget(m1, nowMs);
      var m2 := ServeFocus(m1, nowMs);
      PollingKeepsCapacity(m2, nowMs, io);
      var m3 := PollUpload(m2, nowMs, io);
      ClaimingKeepsCapacity(m3, nowMs, io);
      hide ServeFocus, PollUpload, ClaimResult;
      assert Update(m, nowMs, io).store == ClaimResult(m3, nowMs, io).store;
    }
  }

  lemma ServingKeepsBudget(m: Media, nowMs: nat)
    ensures ServeFocus(m, nowMs).store.budget == m.store.budget
  {
    hide TouchLru, ReversedScreen, CrossFadedScreen;
    TouchingKeepsBudget(m.store, m.screen.focusRoot);
  }

  lemma PollingKeepsCapacity(m: Media, nowMs: nat, io: Io)
    ensures PollUpload(m, nowMs, io).store.budget.capacity == m.store.budget.capacity
  {
    if m.store.pending.Some? {
      var p, s := m.store.pending.value, m.store.(budget := m.store.budget.Taken());
      var s1 := if p.root in s.cache
                then s.(retired := s.retired + [Retired(s.cache[p.root].image, s.frameCounter)],
                        cache := s.cache - {p.root})
                else s;
      hide TouchLru;
      TouchingKeepsBudget(s1.(cache := s1.cache[p.root := Background(p.image)]), p.root);
    }
  }

  predicate WithinCapacity(s: Storage) {
    s.budget.used <= s.budget.capacity
  }

  lemma PublishingStaysWithin(s: Storage, io: Io)
    requires s.pending.Some? && WithinCapacity(s)
    ensures WithinCapacity(Publish(s, io))
  {
    hide TouchLru;
    var p, t := s.pending.value, s.(budget := s.budget.Taken());
    var s1 := if p.root in t.cache
              then t.(retired := t.retired + [Retired(t.cache[p.root].image, t.frameCounter)],
                      cache := t.cache - {p.root})
              else t;
    TouchingKeepsBudget(s1.(cache := s1.cache[p.root := Background(p.image)]), p.root);
  }

  /** No frame takes a set that the pool does not have. */
  lemma UpdateStaysWithin(m: Media, nowMs: nat, io: Io)
    requires WithinCapacity(m.store)
    ensures WithinCapacity(Update(m, nowMs, io).store)
    ensures Update(m, nowMs, io).store.budget.capacity == m.store.budget.capacity
  {
    CapacityUntouched(m, nowMs, io);
    if m.ready {
      var m1 := BeginFrame(m, nowMs);
      ServingKeepsBudget(m1, nowMs);
      var m2 := ServeFocus(m1, nowMs);
      if m2.store.pending.Some? {
        PublishingStaysWithin(m2.store, io);
      }
      var m3 := PollUpload(m2, nowMs, io);
      ClaimingKeepsCapacity(m3, nowMs, io);
      hide ServeFocus, PollUpload, ClaimResult, Publish;
      assert Update(m, nowMs, io).store == ClaimResult(m3, nowMs, io).store;
      assert WithinCapacity(m3.store) by { PolledStore(m2, nowMs, io); }
    }
  }

  lemma PolledStore(m: Media, nowMs: nat, io: Io)
    ensures var s := PollUpload(m, nowMs, io).store;
            s == m.store || (m.store.pending.Some? && s == Publish(m.store, io))
  {
  }

  /** On every step of every interleaving. */
  lemma StepKeepsStorage(m: Media, others: set<nat>, step: Step)
    requires StorageInv(m.store, others) && Enabled(m, step)
    ensures StorageInv(Next(m, step).store, others)
  {
    match step
    case Frame(nowMs, io) => UpdateKeepsStorage(m, others, nowMs, io);
    case Release => ReleaseEmpties(m.store, others);
    case _ =>
  }
}

/** The pure policy behind the library view: how long focus must rest, where a two-phase fade stands at
    an instant, and which backgrounds the least-recently-used order gives up.
    Alphas are reals, so float rounding is not part of this model; clocks are unbounded naturals. */
module LaunchPolicy {

  const FOCUS_DEBOUNCE_MS: nat := 180
  const FADE_OUT_MS: nat := 200
  const FADE_IN_MS: nat := 250
  const BACKGROUND_CACHE_CAPACITY: nat := 3

  // --- focus ---------------------------------------------------------------------------------------

  predicate FocusLoadDue(changedMs: nat, nowMs: nat) {
    nowMs >= changedMs && nowMs - changedMs >= FOCUS_DEBOUNCE_MS
  }

  // --- fade ----------------------------------------------------------------------------------------

  datatype FadeStage = Out | In | Idle

  datatype FadeState = FadeState(stage: FadeStage, oldAlpha: real, newAlpha: real, done: bool)

  function FadeStateAt(startedMs: nat, nowMs: nat, newReady: bool, readyMs: nat): (s: FadeState)
    ensures s.oldAlpha == 0.0 || s.newAlpha == 0.0
    ensures 0.0 <= s.oldAlpha <= 1.0 && 0.0 <= s.newAlpha <= 1.0
    ensures s.done ==> newReady && s.newAlpha == 1.0
  {
    var elapsed := if nowMs > startedMs then nowMs - startedMs else 0;
    if elapsed < FADE_OUT_MS then
      FadeState(Out, 1.0 - elapsed as real / FADE_OUT_MS as real, 0.0, false)
    else if !newReady then
      FadeState(Out, 0.0, 0.0, false)
    else
      var outEnd := startedMs + FADE_OUT_MS;
      var inStart := if readyMs > outEnd then readyMs else outEnd;
      if nowMs <= inStart then
        FadeState(In, 0.0, 0.0, false)
      else
        var t := nowMs - inStart;
        if t >= FADE_IN_MS then FadeState(Idle, 0.0, 1.0, true)
        else FadeState(In, 0.0, t as real / FADE_IN_MS as real, false)
  }

  function Ratio(x: nat, y: nat): real
    requires y > 0
  {
    x as real / y as real
  }

  /** As the clock advances the outgoing side only falls and the incoming side only rises, neither by
      more than its own slope: no instant of an undisturbed transition shows a jump. */
  lemma FadeIsGradual(startedMs: nat, t1: nat, t2: nat, newReady: bool, readyMs: nat)
    requires t1 <= t2
    ensures var a, b := FadeStateAt(startedMs, t1, newReady, readyMs), FadeStateAt(startedMs, t2, newReady, readyMs);
            && 0.0 <= a.oldAlpha - b.oldAlpha <= Ratio(t2 - t1, FADE_OUT_MS)
            && 0.0 <= b.newAlpha - a.newAlpha <= Ratio(t2 - t1, FADE_IN_MS)
            && (a.done ==> b.done)
  {
    var inStart := if readyMs > startedMs + FADE_OUT_MS then readyMs else startedMs + FADE_OUT_MS;
    if t2 >= inStart {
      assert t1 <= inStart ==> t2 - inStart <= t2 - t1;
    }
  }

  /** The asset arriving at `nowMs` changes neither alpha at that instant, whatever the transition had
      reached: the fade-in is anchored at the arrival. */
  lemma ArrivalDoesNotJump(startedMs: nat, nowMs: nat, before: nat)
    ensures var a, b := FadeStateAt(startedMs, nowMs, false, before), FadeStateAt(startedMs, nowMs, true, nowMs);
            a.oldAlpha == b.oldAlpha && a.newAlpha == b.newAlpha
  {
  }

  // --- least recently used -------------------------------------------------------------------------

  predicate NoDuplicates(order: seq<string>) {
    forall i, j :: 0 <= i < j < |order| ==> order[i] != order[j]
  }

  /** `order` without its first `key`. */
  function Without(order: seq<string>, key: string): (r: seq<string>)
    ensures |r| == |order| - (if key in order then 1 else 0)
  {
    if order == [] then []
    else if order[0] == key then order[1..]
    else [order[0]] + Without(order[1..], key)
  }

  /** Oldest first: what stays after touching `key`, and what no longer fits. */
  datatype Touch = Touch(order: seq<string>, evicted: seq<string>)

  function LruTouch(order: seq<string>, key: string, capacity: nat): (t: Touch)
    ensures t.evicted + t.order == Without(order, key) + [key]
    ensures |t.order| <= capacity
    ensures t.evicted != [] ==> |t.order| == capacity
  {
    var all := Without(order, key) + [key];
    var surplus := if |all| > capacity then |all| - capacity else 0;
    assert all[..surplus] + all[surplus..] == all;
    Touch(all[surplus..], all[..surplus])
  }

  lemma {:induction false} WithoutKeepsTheRest(order: seq<string>, key: string)
    requires NoDuplicates(order)
    ensures NoDuplicates(Without(order, key))
    ensures forall r :: r in Without(order, key) <==> r in order && r != key
  {
    if order != [] {
      assert order == [order[0]] + order[1..];
      if order[0] == key {
        assert forall i :: 0 < i < |order| ==> order[i] != order[0];
      } else {
        WithoutKeepsTheRest(order[1..], key);
        assert order[0] !in order[1..];
      }
    }
  }

  /** Touching keeps the order free of duplicates; every entry, old or new, is afterwards either kept
      or reported evicted, never both; and the touched key survives a non-zero capacity. */
  lemma TouchPartitions(order: seq<string>, key: string, capacity: nat)
    requires NoDuplicates(order)
    ensures var t := LruTouch(order, key, capacity);
            && NoDuplicates(t.order)
            && NoDuplicates(t.evicted)
            && (forall r :: r in t.order || r in t.evicted <==> r in order || r == key)
            && (forall r :: !(r in t.order && r in t.evicted))
            && (capacity > 0 ==> key in t.order && t.order[|t.order| - 1] == key)
  {
    var rest, t := Without(order, key), LruTouch(order, key, capacity);
    hide Without, LruTouch;
    WithoutKeepsTheRest(order, key);
    AppendedIsDistinct(rest, key);
    SplitPartitions(rest + [key], t.evicted, t.order);
    if capacity > 0 {
      LastIsKept(rest, key, t.evicted, t.order);
    }
  }

  lemma AppendedIsDistinct(rest: seq<string>, key: string)
    requires NoDuplicates(rest) && key !in rest
    ensures NoDuplicates(rest + [key])
    ensures forall r :: r in rest + [key] <==> r in rest || r == key
  {
  }

  lemma SplitPartitions(all: seq<string>, front: seq<string>, back: seq<string>)
    requires front + back == all && NoDuplicates(all)
    ensures NoDuplicates(front) && NoDuplicates(back)
    ensures forall r :: r in back || r in front <==> r in all
    ensures forall r :: !(r in back && r in front)
  {
    assert all[..|front|] == front && all[|front|..] == back;
  }

  lemma LastIsKept(rest: seq<string>, key: string, front: seq<string>, back: seq<string>)
    requires front + back == rest + [key] && back != []
    ensures key in back && back[|back| - 1] == key
  {
    assert (front + back)[|rest|] == key;
    assert (front + back)[|rest|] == back[|back| - 1];
  }

  /** Within capacity, touching a resident key only reorders: nothing is evicted. */
  lemma TouchingResidentEvictsNothing(order: seq<string>, key: string, capacity: nat)
    requires key in order && |order| <= capacity
    ensures LruTouch(order, key, capacity).evicted == []
    ensures |LruTouch(order, key, capacity).order| == |order|
  {
    var t := LruTouch(order, key, capacity);
    assert |t.evicted + t.order| == |order|;
  }

  /** Below capacity a new key costs nothing either; at capacity it costs exactly the oldest entry. */
  lemma TouchingNewcomerEvictsOldest(order: seq<string>, key: string, capacity: nat)
    requires key !in order && 0 < |order| <= capacity
    ensures LruTouch(order, key, capacity).evicted == if |order| == capacity then [order[0]] else []
  {
    WithoutAbsent(order, key);
    var t := LruTouch(order, key, capacity);
    assert |t.evicted + t.order| == |order| + 1;
    if |order| == capacity {
      assert (t.evicted + t.order)[0] == order[0];
      assert t.evicted == [order[0]];
    }
  }

  lemma {:induction false} WithoutAbsent(order: seq<string>, key: string)
    requires key !in order
    ensures Without(order, key) == order
  {
    if order != [] {
      WithoutAbsent(order[1..], key);
    }
  }

  /** `lru_touch` as the source runs it: one scan that erases the key, a push, and erasures from the
      front while too long. */
  method LruTouchInPlace(order: seq<string>, key: string, capacity: nat) returns (order': seq<string>, evicted: seq<string>)
    ensures Touch(order', evicted) == LruTouch(order, key, capacity)
  {
    order' := order;
    var i := 0;
    while i < |order'|
      invariant 0 <= i <= |order'| && order' == order
      invariant key !in order[..i]
    {
      if order'[i] == key {
        order' := order'[..i] + order'[i + 1..];
        break;
      }
      i := i + 1;
    }
    WithoutSplits(order, key, i);
    ghost var rest := Without(order, key);
    assert order' == rest;
    order' := order' + [key];
    ghost var all := order';
    evicted := [];
    while |order'| > capacity
      invariant evicted + order' == all
      invariant evicted != [] ==> |order'| >= capacity
    {
      evicted := evicted + [order'[0]];
      order' := order'[1..];
    }
    ghost var t := LruTouch(order, key, capacity);
    assert |t.evicted + t.order| == |evicted + order'|;
    SameSplit(t.evicted, t.order, evicted, order');
  }

  lemma SameSplit(a1: seq<string>, b1: seq<string>, a2: seq<string>, b2: seq<string>)
    requires a1 + b1 == a2 + b2 && |b1| == |b2|
    ensures a1 == a2 && b1 == b2
  {
    var all := a1 + b1;
    assert |a1| == |a2|;
    assert a1 == all[..|a1|] && b1 == all[|a1|..];
    assert a2 == (a2 + b2)[..|a1|] && b2 == (a2 + b2)[|a1|..];
  }

  lemma {:induction false} WithoutSplits(order: seq<string>, key: string, i: nat)
    requires i <= |order| && key !in order[..i] && (i < |order| ==> order[i] == key)
    ensures Without(order, key) == if i < |order| then order[..i] + order[i + 1..] else order
  {
    if i == |order| {
      assert order[..i] == order;
      WithoutAbsent(order, key);
    } else if i > 0 {
      assert order[0] == order[..i][0];
      assert order[1..][..i - 1] == order[..i][1..];
      WithoutSplits(order[1..], key, i - 1);
      assert order[1..][..i - 1] + order[1..][i..] == order[1..i] + order[i + 1..];
    }
  }
}

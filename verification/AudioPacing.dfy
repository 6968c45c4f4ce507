/** The pacing grid of one audio port: each call is held back until its grain's turn, on an absolute
    grid that is restarted when it falls too far behind. Times are nanoseconds on the steady clock. One
    caller per port; arrivals, oversleeping and restarts are arbitrary. */
module AudioPacing {
  import opened Wrappers

  const MAX_PORTS: nat := 28
  const SECOND: nat := 1_000_000_000

  /** A deadline of zero means that the next call starts the grid anew. */
  const UNSET: int := 0

  function Grain(frames: nat, freq: nat): nat
    requires freq > 0
  {
    frames * SECOND / freq
  }

  function Periods(k: int, grain: nat): int {
    k * grain
  }

  /** The deadline after a call that arrives at `now`, which is also what the call waits for. A grid that
      starts anew starts `cushion - 1` grains in the past. */
  function Advanced(next: int, now: int, grain: nat, cushion: nat): int {
    (if next == UNSET || next < now - Periods(4, grain) then now - Periods(cushion - 1, grain) else next) + grain
  }

  /** One entry of the port table, as far as pacing reads it. */
  datatype Port = Port(open: bool, freq: nat, next: int)

  /** Whether the device opened, and whether its stream could be set going. */
  datatype DeviceAnswer = Refused | Stuck | Running

  function Opened(p: Port, freq: nat, d: DeviceAnswer): Port {
    match d
    case Refused => p.(open := false)
    case Stuck => Port(false, freq, UNSET)
    case Running => Port(true, freq, UNSET)
  }

  predicate Paces(p: Port) {
    p.open && p.freq > 0
  }

  function AfterOutput(p: Port, frames: nat, now: int, cushion: nat): Port {
    if Paces(p) then p.(next := Advanced(p.next, now, Grain(frames, p.freq), cushion)) else p
  }

  class AudioSink {
    const cushion: nat
    const ports: array<Port>
    var paused: bool

    constructor (cushion: nat)
      ensures fresh(ports) && ports.Length == MAX_PORTS == 28 && this.cushion == cushion && !paused
      ensures forall i :: 0 <= i < MAX_PORTS ==> !ports[i].open && ports[i].next == UNSET
    {
      this.cushion := cushion;
      ports := new Port[MAX_PORTS](_ => Port(false, 0, UNSET));
      paused := false;
    }

    predicate Has(port: int) {
      1 <= port <= ports.Length
    }

    method Open(port: int, freq: nat, d: DeviceAnswer) returns (ok: bool)
      modifies ports
      ensures ok == (Has(port) && d.Running?)
      ensures ports[..] == if Has(port) then old(ports[..])[port - 1 := Opened(old(ports[port - 1]), freq, d)] else old(ports[..])
    {
      if port < 1 || port > ports.Length {
        return false;
      }
      var s := ports[port - 1].(open := false);
      if !d.Refused? {
        s := s.(freq := freq, next := UNSET);
        if d.Running? {
          s := s.(open := true);
        }
      }
      ports[port - 1] := s;
      ok := s.open;
    }

    method Close(port: int)
      modifies ports
      ensures ports[..] == if Has(port) then old(ports[..])[port - 1 := old(ports[port - 1]).(open := false)] else old(ports[..])
    {
      if port < 1 || port > ports.Length {
        return;
      }
      ports[port - 1] := ports[port - 1].(open := false);
    }

    /** Only a resume that ends a pause starts a grid anew, and only on open ports. */
    method SetPaused(pause: bool)
      modifies this`paused, ports
      ensures paused == pause
      ensures forall i :: 0 <= i < ports.Length ==>
                ports[i] == if old(paused) && !pause && old(ports[i]).open then old(ports[i]).(next := UNSET) else old(ports[i])
    {
      if paused == pause {
        return;
      }
      paused := pause;
      var i := 0;
      while i < ports.Length
        invariant 0 <= i <= ports.Length
        invariant forall j :: 0 <= j < i ==>
                    ports[j] == if !pause && old(ports[j]).open then old(ports[j]).(next := UNSET) else old(ports[j])
        invariant forall j :: i <= j < ports.Length ==> ports[j] == old(ports[j])
        modifies ports
      {
        if ports[i].open && !pause {
          ports[i] := ports[i].(next := UNSET);
        }
        i := i + 1;
      }
    }

    /** What the caller sleeps until, if it sleeps at all. */
    method Output(port: int, frames: nat, now: int) returns (target: Option<int>)
      modifies ports
      ensures target == if Has(port) && Paces(old(ports[port - 1])) then Some(ports[port - 1].next) else None
      ensures ports[..] == if Has(port) then old(ports[..])[port - 1 := AfterOutput(old(ports[port - 1]), frames, now, cushion)]
                           else old(ports[..])
    {
      target := None;
      if port < 1 || port > ports.Length || !ports[port - 1].open {
        return;
      }
      var s := ports[port - 1];
      if s.freq > 0 {
        var dur := frames * SECOND / s.freq;
        if s.next == UNSET || s.next < now - dur * 4 {
          s := s.(next := now - dur * (cushion - 1));
        }
        s := s.(next := s.next + dur);
        target := Some(s.next);
      }
      ports[port - 1] := s;
    }
  }

  // --- one port's calls ----------------------------------------------------------------------------

  /** A call: whether the port was opened or resumed since the call before computed its target, when it
      arrived, and when it returned. */
  datatype Call = Call(restarted: bool, arrival: int, ret: int)

  function Target(next: int, c: Call, grain: nat, cushion: nat): int {
    Advanced(if c.restarted then UNSET else next, c.arrival, grain, cushion)
  }

  /** Every call arrives after the one before returned, and returns no earlier than it may. */
  predicate Valid(grain: nat, cushion: nat, next: int, last: int, calls: seq<Call>)
    decreases |calls|
  {
    calls == [] ||
    var target := Target(next, calls[0], grain, cushion);
    && last <= calls[0].arrival <= calls[0].ret && target <= calls[0].ret
    && Valid(grain, cushion, target, calls[0].ret, calls[1..])
  }

  function Targets(grain: nat, cushion: nat, next: int, calls: seq<Call>): (t: seq<int>)
    ensures |t| == |calls|
    decreases |calls|
  {
    if calls == [] then []
    else
      var target := Target(next, calls[0], grain, cushion);
      [target] + Targets(grain, cushion, target, calls[1..])
  }

  predicate Unrestarted(calls: seq<Call>) {
    forall i :: 0 < i < |calls| ==> !calls[i].restarted
  }

  /** The cushion is one grain; or it is at most five, the port is not restarted in between, and the clock
      is past the instant whose deadline would be zero. */
  predicate Paced(grain: nat, cushion: nat, last: int, calls: seq<Call>) {
    && 1 <= cushion <= 5
    && (cushion > 1 ==> last > Periods(cushion - 2, grain) && Unrestarted(calls))
  }

  predicate Apart(t: seq<int>, grain: nat) {
    forall i :: 0 < i < |t| ==> t[i] >= t[i - 1] + grain
  }

  predicate NearArrival(t: seq<int>, calls: seq<Call>, grain: nat)
    requires |t| == |calls|
  {
    forall i :: 0 <= i < |t| ==> calls[i].arrival - 3 * grain <= t[i] <= calls[i].arrival + grain
  }

  predicate Ordered(calls: seq<Call>, t: seq<int>)
    requires |t| == |calls|
  {
    forall i :: 0 <= i < |calls| ==>
      && calls[i].arrival <= calls[i].ret && t[i] <= calls[i].ret
      && (i > 0 ==> calls[i - 1].ret <= calls[i].arrival)
  }

  lemma CushionIsShort(grain: nat, cushion: nat)
    ensures Periods(cushion - 1, grain) == Periods(cushion - 2, grain) + grain
    ensures 1 <= cushion <= 5 ==> 0 <= Periods(cushion - 1, grain) <= 4 * grain
    ensures cushion == 1 ==> Periods(cushion - 1, grain) == 0
    ensures Periods(4, grain) == 4 * grain
  {
  }

  lemma {:induction false} CallsAreOrdered(grain: nat, cushion: nat, next: int, last: int, calls: seq<Call>)
    requires Valid(grain, cushion, next, last, calls)
    ensures Ordered(calls, Targets(grain, cushion, next, calls))
    ensures calls != [] ==> last <= calls[0].arrival
    decreases |calls|
  {
    if calls != [] {
      var target, rest := Target(next, calls[0], grain, cushion), calls[1..];
      CallsAreOrdered(grain, cushion, target, calls[0].ret, rest);
      assert calls == [calls[0]] + rest;
    }
  }

  /** No call waits for a target later than its arrival plus a grain, or gets one more than three grains
      old. */
  lemma {:induction false} TargetsNearArrival(grain: nat, cushion: nat, next: int, last: int, calls: seq<Call>)
    requires Valid(grain, cushion, next, last, calls) && 1 <= cushion <= 5 && (next == UNSET || next <= last)
    ensures NearArrival(Targets(grain, cushion, next, calls), calls, grain)
    decreases |calls|
  {
    CushionIsShort(grain, cushion);
    if calls != [] {
      var target, rest := Target(next, calls[0], grain, cushion), calls[1..];
      TargetsNearArrival(grain, cushion, target, calls[0].ret, rest);
      assert calls == [calls[0]] + rest;
    }
  }

  /** Targets are at least a grain apart. */
  lemma {:induction false} TargetsAreApart(grain: nat, cushion: nat, next: int, last: int, calls: seq<Call>)
    requires Valid(grain, cushion, next, last, calls) && Paced(grain, cushion, last, calls)
    requires cushion > 1 ==> next >= 0
    ensures Apart(Targets(grain, cushion, next, calls), grain)
    decreases |calls|
  {
    CushionIsShort(grain, cushion);
    if |calls| > 1 {
      var target, rest := Target(next, calls[0], grain, cushion), calls[1..];
      assert rest[0] == calls[1];
      assert forall i :: 0 <= i < |rest| ==> rest[i] == calls[i + 1];
      if cushion > 1 {
        DeadlineIsSet(grain, cushion, next, calls[0]);
      }
      TargetsAreApart(grain, cushion, target, calls[0].ret, rest);
      NextIsApart(grain, cushion, target, calls[0], rest[0]);
    }
  }

  lemma DeadlineIsSet(grain: nat, cushion: nat, next: int, c: Call)
    requires next >= 0 && c.arrival > Periods(cushion - 2, grain)
    ensures Target(next, c, grain, cushion) > 0
  {
    CushionIsShort(grain, cushion);
  }

  lemma NextIsApart(grain: nat, cushion: nat, target: int, c: Call, d: Call)
    requires 1 <= cushion <= 5 && target <= c.ret <= d.arrival
    requires cushion > 1 ==> target != UNSET && !d.restarted
    ensures Target(target, d, grain, cushion) >= target + grain
  {
    CushionIsShort(grain, cushion);
  }

  // --- how many in a window ------------------------------------------------------------------------

  lemma {:induction false} ApartAdds(t: seq<int>, grain: nat, i: nat, j: nat)
    requires Apart(t, grain) && i <= j < |t|
    ensures t[j] >= t[i] + Periods(j - i, grain)
    decreases j - i
  {
    if i < j {
      ApartAdds(t, grain, i, j - 1);
      OnePeriodMore(j - 1 - i, grain);
    }
  }

  lemma OnePeriodMore(k: int, grain: nat)
    ensures Periods(k + 1, grain) == Periods(k, grain) + grain
  {
  }

  /** How many whole grains a window has. */
  function Whole(window: nat, grain: nat): nat
    requires grain > 0
  {
    window / grain
  }

  lemma PeriodsDivide(k: int, grain: nat, window: nat)
    requires grain > 0 && Periods(k, grain) <= window
    ensures k <= Whole(window, grain)
  {
    var q := Whole(window, grain);
    assert window < Periods(q, grain) + grain by {
      assert window == Periods(q, grain) + window % grain;
    }
    OnePeriodMore(q, grain);
    if k >= q + 1 {
      MorePeriodsAreLonger(q + 1, k, grain);
      assert false;
    }
  }

  lemma {:induction false} MorePeriodsAreLonger(a: int, b: int, grain: nat)
    requires a <= b
    ensures Periods(a, grain) <= Periods(b, grain)
    decreases b - a
  {
    if a < b {
      MorePeriodsAreLonger(a, b - 1, grain);
      OnePeriodMore(b - 1, grain);
    }
  }

  /** Two calls that both return inside the window. */
  lemma PairInWindow(grain: nat, calls: seq<Call>, t: seq<int>, start: int, window: nat, i: nat, j: nat)
    requires |t| == |calls| && grain > 0
    requires Apart(t, grain) && NearArrival(t, calls, grain) && Ordered(calls, t)
    requires i <= j < |calls| && start <= calls[i].ret && calls[j].ret <= start + window
    ensures j - i + 1 <= Whole(window, grain) + 5
  {
    if i == j { return; }
    ApartAdds(t, grain, i + 1, j);
    var k := j - i - 1;
    assert calls[i + 1].arrival >= start;
    OnePeriodMore(k - 3, grain);
    OnePeriodMore(k - 2, grain);
    OnePeriodMore(k - 1, grain);
    PeriodsDivide(k - 3, grain, window);
  }

  predicate ReturnsIn(c: Call, start: int, window: nat) {
    start <= c.ret <= start + window
  }

  function Returns(calls: seq<Call>, start: int, window: nat): nat {
    if calls == [] then 0
    else Returns(calls[..|calls| - 1], start, window) + (if ReturnsIn(calls[|calls| - 1], start, window) then 1 else 0)
  }

  lemma {:induction false} ReturnsSpan(calls: seq<Call>, start: int, window: nat) returns (i: nat, j: nat)
    requires Returns(calls, start, window) > 0
    ensures i <= j < |calls| && ReturnsIn(calls[i], start, window) && ReturnsIn(calls[j], start, window)
    ensures Returns(calls, start, window) <= j - i + 1
  {
    var init := calls[..|calls| - 1];
    if Returns(init, start, window) == 0 {
      i, j := |calls| - 1, |calls| - 1;
    } else {
      i, j := ReturnsSpan(init, start, window);
      if ReturnsIn(calls[|calls| - 1], start, window) {
        j := |calls| - 1;
      }
    }
  }

  /** Whatever the arrivals and oversleeps, and at the default cushion whatever the restarts: any window
      holds at most as many returns as it has whole grains, and five more. */
  lemma BoundedBurst(grain: nat, cushion: nat, last: int, calls: seq<Call>, start: int, window: nat)
    requires grain > 0 && Valid(grain, cushion, UNSET, last, calls) && Paced(grain, cushion, last, calls)
    ensures Returns(calls, start, window) <= Whole(window, grain) + 5
  {
    CallsAreOrdered(grain, cushion, UNSET, last, calls);
    TargetsNearArrival(grain, cushion, UNSET, last, calls);
    TargetsAreApart(grain, cushion, UNSET, last, calls);
    var t := Targets(grain, cushion, UNSET, calls);
    hide Valid, Targets, Apart, NearArrival, Ordered, Whole, Returns;
    if Returns(calls, start, window) > 0 {
      var i, j := ReturnsSpan(calls, start, window);
      PairInWindow(grain, calls, t, start, window, i, j);
    }
  }

  // --- the bound is reached ------------------------------------------------------------------------

  /** Every call arrives as the one before returns, and none oversleeps. */
  function OnGrid(grain: nat, at: int, n: nat): (calls: seq<Call>)
    ensures |calls| == n
    decreases n
  {
    if n == 0 then [] else [Call(false, at, at + grain)] + OnGrid(grain, at + grain, n - 1)
  }

  lemma {:induction false} OnGridIsValid(grain: nat, at: int, n: nat)
    requires at > 0
    ensures Valid(grain, 1, at, at, OnGrid(grain, at, n))
    ensures forall i :: 0 <= i < n ==> OnGrid(grain, at, n)[i].ret == at + Periods(i + 1, grain)
    decreases n
  {
    if n > 0 {
      OnGridIsValid(grain, at + grain, n - 1);
      forall i | 0 <= i < n ensures OnGrid(grain, at, n)[i].ret == at + Periods(i + 1, grain) {
        OnePeriodMore(i, grain);
      }
    }
  }

  /** The first call sleeps four grains too long; the next four return at once; then one a grain. */
  function Burst(grain: nat, at: int, n: nat): seq<Call> {
    [Call(false, at - 5 * grain, at), Call(false, at, at), Call(false, at, at), Call(false, at, at), Call(false, at, at)]
    + OnGrid(grain, at, n)
  }

  lemma BurstIsValid(grain: nat, at: int, n: nat)
    requires grain > 0 && at > 5 * grain
    ensures Valid(grain, 1, UNSET, at - 5 * grain, Burst(grain, at, n))
  {
    var calls, rest := Burst(grain, at, n), OnGrid(grain, at, n);
    OnGridIsValid(grain, at, n);
    assert calls[1..][1..][1..][1..][1..] == rest;
    assert Valid(grain, 1, at - grain, at, calls[1..][1..][1..][1..]);
    assert Valid(grain, 1, at - 2 * grain, at, calls[1..][1..][1..]);
    assert Valid(grain, 1, at - 3 * grain, at, calls[1..][1..]);
    assert Valid(grain, 1, at - 4 * grain, at, calls[1..]);
  }

  lemma {:induction false} AllReturn(calls: seq<Call>, start: int, window: nat)
    requires forall i :: 0 <= i < |calls| ==> ReturnsIn(calls[i], start, window)
    ensures Returns(calls, start, window) == |calls|
  {
    if calls != [] {
      AllReturn(calls[..|calls| - 1], start, window);
    }
  }

  /** For every number of grains there is a run whose window of that length holds five more returns. */
  lemma BurstReachesBound(grain: nat, at: int, n: nat)
    requires grain > 0 && at > 5 * grain
    ensures Valid(grain, 1, UNSET, at - 5 * grain, Burst(grain, at, n))
    ensures Periods(n, grain) >= 0 && Whole(Periods(n, grain), grain) == n
    ensures Returns(Burst(grain, at, n), at, Periods(n, grain)) == Whole(Periods(n, grain), grain) + 5
  {
    BurstIsValid(grain, at, n);
    OnGridIsValid(grain, at, n);
    MorePeriodsAreLonger(0, n, grain);
    PeriodsDivide(n, grain, Periods(n, grain));
    var q := Whole(Periods(n, grain), grain);
    assert Periods(q, grain) <= Periods(n, grain);
    if q > n {
      MorePeriodsAreLonger(n + 1, q, grain);
      OnePeriodMore(n, grain);
      assert false;
    }
    var calls := Burst(grain, at, n);
    forall i | 0 <= i < |calls| ensures ReturnsIn(calls[i], at, Periods(n, grain)) {
      if i >= 5 {
        assert calls[i] == OnGrid(grain, at, n)[i - 5];
        MorePeriodsAreLonger(0, i - 4, grain);
        MorePeriodsAreLonger(i - 4, n, grain);
      }
    }
    AllReturn(calls, at, Periods(n, grain));
  }

  // --- longer cushions -----------------------------------------------------------------------------

  /** A call every nanosecond, none of which waits. */
  function Flood(at: int, n: nat): (calls: seq<Call>)
    ensures |calls| == n
    decreases n
  {
    if n == 0 then [] else [Call(false, at, at)] + Flood(at + 1, n - 1)
  }

  lemma LongCushion(grain: nat, cushion: nat)
    requires cushion >= 6
    ensures Periods(cushion - 1, grain) >= Periods(4, grain) + grain
  {
    MorePeriodsAreLonger(5, cushion - 1, grain);
    OnePeriodMore(4, grain);
  }

  lemma {:induction false} FloodIsValid(grain: nat, cushion: nat, next: int, at: int, n: nat)
    requires cushion >= 6 && (next == UNSET || next < at - Periods(4, grain))
    ensures Valid(grain, cushion, next, at, Flood(at, n))
    decreases n
  {
    if n > 0 {
      LongCushion(grain, cushion);
      var target := at - Periods(cushion - 1, grain) + grain;
      assert Target(next, Call(false, at, at), grain, cushion) == target;
      FloodIsValid(grain, cushion, target, at + 1, n - 1);
      assert Flood(at, n)[1..] == Flood(at + 1, n - 1);
      assert Valid(grain, cushion, target, at + 1, Flood(at + 1, n - 1));
      EarlierIsValid(grain, cushion, target, at, at + 1, Flood(at + 1, n - 1));
    }
  }

  lemma {:induction false} FloodReturns(at: int, n: nat)
    ensures forall i :: 0 <= i < n ==> Flood(at, n)[i].ret == at + i
    decreases n
  {
    if n > 0 {
      FloodReturns(at + 1, n - 1);
    }
  }

  /** A cushion of six grains or more leaves the port unpaced even when it is never restarted: any number
      of calls return, one a nanosecond, without waiting. */
  lemma LongCushionIsUnpaced(grain: nat, cushion: nat, at: int, n: nat)
    requires cushion >= 6
    ensures Valid(grain, cushion, UNSET, at, Flood(at, n))
    ensures Returns(Flood(at, n), at, n) == n
  {
    FloodIsValid(grain, cushion, UNSET, at, n);
    FloodReturns(at, n);
    AllReturn(Flood(at, n), at, n);
  }

  // --- which cushions keep the bound ---------------------------------------------------------------

  /** Calls that all arrive and return at one instant. */
  function Standing(restarted: bool, at: int, n: nat): (calls: seq<Call>)
    ensures |calls| == n && forall i :: 0 <= i < n ==> calls[i] == Call(restarted, at, at)
  {
    if n == 0 then [] else [Call(restarted, at, at)] + Standing(restarted, at, n - 1)
  }

  lemma LeadIsNoWait(grain: nat, cushion: nat)
    requires cushion >= 2
    ensures Periods(cushion - 1, grain) >= grain
  {
    MorePeriodsAreLonger(1, cushion - 1, grain);
  }

  lemma {:induction false} RestartedStanding(grain: nat, cushion: nat, next: int, at: int, n: nat)
    requires cushion >= 2
    ensures Valid(grain, cushion, next, at, Standing(true, at, n))
    decreases n
  {
    if n > 0 {
      LeadIsNoWait(grain, cushion);
      RestartedStanding(grain, cushion, at - Periods(cushion - 1, grain) + grain, at, n - 1);
      assert Standing(true, at, n)[1..] == Standing(true, at, n - 1);
    }
  }

  /** Any cushion above the default is undone by restarts: with one before every call, any number of
      calls return at one instant. */
  lemma RestartsUnpace(grain: nat, cushion: nat, at: int, n: nat)
    requires cushion >= 2
    ensures Valid(grain, cushion, UNSET, at, Standing(true, at, n))
    ensures Returns(Standing(true, at, n), at, 0) == n
  {
    RestartedStanding(grain, cushion, UNSET, at, n);
    AllReturn(Standing(true, at, n), at, 0);
  }

  lemma {:induction false} ZeroDeadlineStanding(grain: nat, cushion: nat, n: nat)
    requires cushion >= 2
    ensures Valid(grain, cushion, UNSET, Periods(cushion - 2, grain), Standing(false, Periods(cushion - 2, grain), n))
    decreases n
  {
    if n > 0 {
      var at := Periods(cushion - 2, grain);
      OnePeriodMore(cushion - 2, grain);
      MorePeriodsAreLonger(0, cushion - 2, grain);
      ZeroDeadlineStanding(grain, cushion, n - 1);
      assert Target(UNSET, Call(false, at, at), grain, cushion) == UNSET;
      assert Standing(false, at, n)[1..] == Standing(false, at, n - 1);
    }
  }

  /** And at the one instant whose restarted deadline is zero, which reads as unset. */
  lemma ZeroDeadlineUnpaces(grain: nat, cushion: nat, n: nat)
    requires cushion >= 2
    ensures var at := Periods(cushion - 2, grain);
            && Valid(grain, cushion, UNSET, at, Standing(false, at, n))
            && Returns(Standing(false, at, n), at, 0) == n
  {
    ZeroDeadlineStanding(grain, cushion, n);
    AllReturn(Standing(false, Periods(cushion - 2, grain), n), Periods(cushion - 2, grain), 0);
  }

  lemma {:induction false} LongStanding(grain: nat, cushion: nat, next: int, at: int, n: nat)
    requires cushion >= 6 && n <= 5
    requires next == UNSET || next < at - Periods(4, grain) || next <= at - Periods(n, grain)
    ensures Valid(grain, cushion, next, at, Standing(false, at, n))
    decreases n
  {
    if n > 0 {
      var target := Target(next, Call(false, at, at), grain, cushion);
      LongCushion(grain, cushion);
      OnePeriodMore(n - 1, grain);
      MorePeriodsAreLonger(n - 1, 4, grain);
      MorePeriodsAreLonger(0, n - 1, grain);
      LongStanding(grain, cushion, target, at, n - 1);
      assert Standing(false, at, n)[1..] == Standing(false, at, n - 1);
    }
  }

  /** The first call oversleeps by a nanosecond, and five more follow at once. */
  function Overslept(at: int): (calls: seq<Call>)
    ensures |calls| == 6
  {
    [Call(false, at - 1, at)] + Standing(false, at, 5)
  }

  lemma OversleptIsValid(grain: nat, cushion: nat, at: int)
    requires cushion >= 6
    ensures Valid(grain, cushion, UNSET, at - 1, Overslept(at))
    ensures Returns(Overslept(at), at, 0) == 6
  {
    LongCushion(grain, cushion);
    MorePeriodsAreLonger(0, 4, grain);
    LongStanding(grain, cushion, Target(UNSET, Call(false, at - 1, at), grain, cushion), at, 5);
    assert Overslept(at)[1..] == Standing(false, at, 5);
    AllReturn(Overslept(at), at, 0);
  }

  /** Every run that begins at `last` or later holds at most five returns more than whole grains. */
  ghost predicate KeepsBound(grain: nat, cushion: nat, last: int, restarts: bool)
    requires grain > 0
  {
    forall calls: seq<Call>, start: int, window: nat ::
      Valid(grain, cushion, UNSET, last, calls) && (restarts || Unrestarted(calls)) ==>
        Returns(calls, start, window) <= Whole(window, grain) + 5
  }

  lemma Breaks(grain: nat, cushion: nat, last: int, restarts: bool, calls: seq<Call>, at: int)
    requires grain > 0 && Valid(grain, cushion, UNSET, last, calls) && (restarts || Unrestarted(calls))
    requires Returns(calls, at, 0) == 6
    ensures !KeepsBound(grain, cushion, last, restarts)
  {
    assert Whole(0, grain) == 0;
  }

  lemma EarlierIsValid(grain: nat, cushion: nat, next: int, last: int, later: int, calls: seq<Call>)
    requires Valid(grain, cushion, next, later, calls) && last <= later
    ensures Valid(grain, cushion, next, last, calls)
  {
  }

  lemma BoundKept(grain: nat, cushion: nat, last: int)
    requires grain > 0
    ensures cushion == 1 ==> KeepsBound(grain, cushion, last, true)
    ensures cushion == 1 || (2 <= cushion <= 5 && last > Periods(cushion - 2, grain)) ==> KeepsBound(grain, cushion, last, false)
  {
    forall calls: seq<Call>, start: int, window: nat
      | Valid(grain, cushion, UNSET, last, calls) && Paced(grain, cushion, last, calls)
      ensures Returns(calls, start, window) <= Whole(window, grain) + 5
    {
      BoundedBurst(grain, cushion, last, calls, start, window);
    }
  }

  /** Exactly when the bound holds. With restarts: at the default cushion alone. Without: also up to five
      grains, once the clock is past the instant whose restarted deadline is zero. */
  lemma BoundDecided(grain: nat, cushion: nat, last: int)
    requires grain > 0 && cushion >= 1
    ensures KeepsBound(grain, cushion, last, true) <==> cushion == 1
    ensures KeepsBound(grain, cushion, last, false) <==>
              cushion == 1 || (cushion <= 5 && last > Periods(cushion - 2, grain))
  {
    BoundKept(grain, cushion, last);
    hide KeepsBound, Valid;
    if cushion >= 2 {
      RestartsUnpace(grain, cushion, last, 6);
      Breaks(grain, cushion, last, true, Standing(true, last, 6), last);
      var at := Periods(cushion - 2, grain);
      if cushion >= 6 {
        OversleptIsValid(grain, cushion, last + 1);
        Breaks(grain, cushion, last, false, Overslept(last + 1), last + 1);
      } else if last <= at {
        ZeroDeadlineUnpaces(grain, cushion, 6);
        EarlierIsValid(grain, cushion, UNSET, last, at, Standing(false, at, 6));
        Breaks(grain, cushion, last, false, Standing(false, at, 6), at);
      }
    }
  }

  // --- no drift ------------------------------------------------------------------------------------

  /** Never restarted, and never more than four grains late. */
  predicate KeepsUp(grain: nat, next: int, calls: seq<Call>)
    decreases |calls|
  {
    calls == [] ||
    (!calls[0].restarted && next != UNSET && next >= calls[0].arrival - Periods(4, grain) && KeepsUp(grain, next + grain, calls[1..]))
  }

  /** The grid is absolute: lateness is made up for as long as it stays within four grains. */
  lemma {:induction false} GridDoesNotDrift(grain: nat, cushion: nat, next: int, calls: seq<Call>)
    requires KeepsUp(grain, next, calls)
    ensures forall i :: 0 <= i < |calls| ==> Targets(grain, cushion, next, calls)[i] == next + Periods(i + 1, grain)
    decreases |calls|
  {
    if calls != [] {
      GridDoesNotDrift(grain, cushion, next + grain, calls[1..]);
      var t := Targets(grain, cushion, next, calls);
      forall i | 0 <= i < |calls| ensures t[i] == next + Periods(i + 1, grain) {
        OnePeriodMore(i, grain);
        if i > 0 {
          assert t[i] == Targets(grain, cushion, next + grain, calls[1..])[i - 1];
        }
      }
    }
  }

  // --- the sink and the clock ----------------------------------------------------------------------

  /** A grain is as long as its frames take at the port's rate, to the nanosecond below: frames are never
      paced faster than they play, nor slower by more than a nanosecond a call. */
  lemma GrainIsPlayingTime(frames: nat, freq: nat)
    requires freq > 0
    ensures Grain(frames, freq) * freq <= frames * 1_000_000_000 < (Grain(frames, freq) + 1) * freq
  {
    var n := frames * SECOND;
    assert n == n / freq * freq + n % freq;
  }

  /** The first call on a port just opened, or just resumed, waits one grain at the default cushion. */
  lemma StartsAfresh(p: Port, freq: nat, frames: nat, now: int)
    requires freq > 0
    ensures var o := AfterOutput(Opened(p, freq, Running), frames, now, 1);
            o.open && o.freq == freq && o.next == now + Grain(frames, freq)
    ensures p.open && p.freq > 0 ==> AfterOutput(p.(next := UNSET), frames, now, 1).next == now + Grain(frames, p.freq)
    ensures Opened(p, freq, Refused) == p.(open := false) && !Opened(p, freq, Stuck).open
  {
    CushionIsShort(Grain(frames, freq), 1);
    CushionIsShort(Grain(frames, if p.freq > 0 then p.freq else 1), 1);
  }

  /** The port's deadlines over a sequence of calls. */
  function Deadlines(p: Port, frames: nat, cushion: nat, calls: seq<Call>): seq<int>
    decreases |calls|
  {
    if calls == [] then []
    else
      var q := AfterOutput(if calls[0].restarted then p.(next := UNSET) else p, frames, calls[0].arrival, cushion);
      [q.next] + Deadlines(q, frames, cushion, calls[1..])
  }

  /** What the sink makes its callers wait for is the sequence of targets the bounds are about. */
  lemma {:induction false} DeadlinesAreTargets(p: Port, frames: nat, cushion: nat, calls: seq<Call>)
    requires p.open && p.freq > 0
    ensures Deadlines(p, frames, cushion, calls) == Targets(Grain(frames, p.freq), cushion, p.next, calls)
    decreases |calls|
  {
    if calls != [] {
      var q := AfterOutput(if calls[0].restarted then p.(next := UNSET) else p, frames, calls[0].arrival, cushion);
      assert q == p.(next := q.next);
      DeadlinesAreTargets(q, frames, cushion, calls[1..]);
    }
  }
}

/** Exclusive reservation of the two files one capture owns, by any number of processes at once: each
    file-system call of each run is one step, and the steps of all runs interleave with files appearing
    from outside. */
module FrameGrab {

  // --- names ---------------------------------------------------------------------------------------

  function Trimmed(dir: string): string {
    if |dir| > 1 && (dir[|dir| - 1] == '/' || dir[|dir| - 1] == '\\') then Trimmed(dir[..|dir| - 1]) else dir
  }

  function BaseDir(dir: string): string {
    Trimmed(if dir == "" then "." else dir)
  }

  function Digit(d: nat): char
    requires d < 10
  {
    "0123456789"[d]
  }

  function Decimal(n: nat): string {
    if n < 10 then [Digit(n)] else Decimal(n / 10) + [Digit(n % 10)]
  }

  /** The first collision reads "-2". */
  function StemAt(base: string, n: nat): string {
    if n == 0 then base else base + "-" + Decimal(n + 1)
  }

  function BundlePath(dir: string, stem: string): string {
    dir + "/" + stem + ".prgbundle"
  }

  function ShotPath(dir: string, stem: string): string {
    dir + "/" + stem + ".bmp"
  }

  lemma PathsDiffer(dir: string, stem1: string, stem2: string)
    ensures BundlePath(dir, stem1) != ShotPath(dir, stem2)
  {
    var b, s := BundlePath(dir, stem1), ShotPath(dir, stem2);
    assert b[|b| - 1] == 'e' && s[|s| - 1] == 'p';
  }

  // --- one run -------------------------------------------------------------------------------------

  datatype Outcome = Claimed(n: nat) | Failed | Exhausted

  /** Where a run is: about to create the bundle or the screenshot of suffix `n`, or about to release the
      bundle because the screenshot's name was taken or could not be created. */
  datatype At = Bundle(n: nat) | Shot(n: nat) | Release(n: nat, taken: bool) | Done(outcome: Outcome)

  /** `stranded` are the bundles whose release failed; the run warns about them. */
  datatype Run = Run(dir: string, base: string, maxSuffix: nat, at: At, stranded: set<string>)

  function BundleOf(r: Run, n: nat): string {
    BundlePath(r.dir, StemAt(r.base, n))
  }

  function ShotOf(r: Run, n: nat): string {
    ShotPath(r.dir, StemAt(r.base, n))
  }

  function Started(dir: string, base: string, maxSuffix: nat): Run {
    Run(BaseDir(dir), base, maxSuffix, Bundle(0), {})
  }

  function NextName(r: Run, n: nat): At {
    if n < r.maxSuffix then Bundle(n + 1) else Done(Exhausted)
  }

  /** What a run holds on disk. */
  function Held(r: Run): set<string> {
    r.stranded + match r.at
                 case Bundle(_) => {}
                 case Shot(n) => {BundleOf(r, n)}
                 case Release(n, _) => {BundleOf(r, n)}
                 case Done(Claimed(n)) => {BundleOf(r, n), ShotOf(r, n)}
                 case Done(_) => {}
  }

  // --- all runs over one file system ---------------------------------------------------------------

  datatype Owner = Outside | OfRun(id: nat)

  datatype Disk = Disk(files: map<string, Owner>, runs: seq<Run>)

  datatype Step =
    | Appears(path: string)                         // a file from outside
    | Begins(dir: string, base: string, maxSuffix: nat)
    | Creates(id: nat)                              // the exclusive create succeeds
    | FindsTaken(id: nat)                           // the exclusive create reports that the name exists
    | CannotCreate(id: nat)                         // any other error
    | Removes(id: nat, removed: bool)

  predicate Creating(d: Disk, id: nat) {
    id < |d.runs| && (d.runs[id].at.Bundle? || d.runs[id].at.Shot?)
  }

  function Wanted(r: Run): string
    requires r.at.Bundle? || r.at.Shot?
  {
    if r.at.Bundle? then BundleOf(r, r.at.n) else ShotOf(r, r.at.n)
  }

  predicate Enabled(d: Disk, s: Step) {
    match s
    case Appears(path) => path !in d.files
    case Begins(_, _, _) => true
    case Creates(id) => Creating(d, id) && Wanted(d.runs[id]) !in d.files
    case FindsTaken(id) => Creating(d, id) && Wanted(d.runs[id]) in d.files
    case CannotCreate(id) => Creating(d, id)
    case Removes(id, _) => id < |d.runs| && d.runs[id].at.Release?
  }

  function Moved(d: Disk, id: nat, at: At): Disk
    requires id < |d.runs|
  {
    d.(runs := d.runs[id := d.runs[id].(at := at)])
  }

  function Next(d: Disk, s: Step): Disk
    requires Enabled(d, s)
  {
    match s
    case Appears(path) => d.(files := d.files[path := Outside])
    case Begins(dir, base, maxSuffix) => d.(runs := d.runs + [Started(dir, base, maxSuffix)])
    case Creates(id) =>
      var r := d.runs[id];
      var moved := Moved(d, id, if r.at.Bundle? then Shot(r.at.n) else Done(Claimed(r.at.n)));
      moved.(files := d.files[Wanted(r) := OfRun(id)])
    case FindsTaken(id) =>
      var r := d.runs[id];
      Moved(d, id, if r.at.Bundle? then NextName(r, r.at.n) else Release(r.at.n, true))
    case CannotCreate(id) =>
      var r := d.runs[id];
      Moved(d, id, if r.at.Bundle? then Done(Failed) else Release(r.at.n, false))
    case Removes(id, removed) =>
      var r := d.runs[id];
      var bundle := BundleOf(r, r.at.n);
      var moved := Moved(d, id, if r.at.taken then NextName(r, r.at.n) else Done(Failed));
      if removed then moved.(files := d.files - {bundle})
      else moved.(runs := moved.runs[id := moved.runs[id].(stranded := r.stranded + {bundle})])
  }

  // --- invariant -----------------------------------------------------------------------------------

  /** A run's files are exactly the ones it holds. */
  ghost predicate OwnsWhatItHolds(d: Disk, id: nat)
    requires id < |d.runs|
  {
    forall p: string :: p in Held(d.runs[id]) <==> p in d.files && d.files[p] == OfRun(id)
  }

  /** The bundle being worked on is not one that was stranded before. */
  predicate HoldsAfresh(r: Run) {
    match r.at
    case Shot(n) => BundleOf(r, n) !in r.stranded
    case Release(n, _) => BundleOf(r, n) !in r.stranded
    case _ => true
  }

  ghost predicate Inv(d: Disk) {
    && (forall id :: 0 <= id < |d.runs| ==> OwnsWhatItHolds(d, id) && HoldsAfresh(d.runs[id]))
    && (forall p :: p in d.files && d.files[p].OfRun? ==> d.files[p].id < |d.runs|)
  }

  /** Nothing is ever removed but by the run that made it, and a finished run never changes. */
  ghost predicate Preserves(d: Disk, e: Disk) {
    && (forall p :: p in d.files && d.files[p].Outside? ==> p in e.files && e.files[p].Outside?)
    && |d.runs| <= |e.runs|
    && (forall id :: 0 <= id < |d.runs| && d.runs[id].at.Done? ==> e.runs[id] == d.runs[id])
  }

  /** The one run that moved owns what it holds; everybody else's files are untouched. */
  lemma OneRunMoved(d: Disk, e: Disk, id: nat)
    requires Inv(d) && id < |d.runs| && |e.runs| == |d.runs|
    requires forall j :: 0 <= j < |d.runs| && j != id ==> e.runs[j] == d.runs[j]
    requires forall p :: (p in e.files && e.files[p] != OfRun(id)) <==> (p in d.files && d.files[p] != OfRun(id))
    requires forall p :: p in e.files && e.files[p] != OfRun(id) ==> e.files[p] == d.files[p]
    requires OwnsWhatItHolds(e, id) && HoldsAfresh(e.runs[id])
    requires !d.runs[id].at.Done?
    ensures Inv(e) && Preserves(d, e)
  {
    forall j | 0 <= j < |e.runs| ensures OwnsWhatItHolds(e, j) && HoldsAfresh(e.runs[j]) {
      if j != id {
        assert OwnsWhatItHolds(d, j) && HoldsAfresh(d.runs[j]);
      }
    }
  }

  lemma NextKeepsInv(d: Disk, s: Step)
    requires Inv(d) && Enabled(d, s)
    ensures Inv(Next(d, s)) && Preserves(d, Next(d, s))
  {
    var e := Next(d, s);
    match s
    case Appears(path) =>
      forall j | 0 <= j < |e.runs| ensures OwnsWhatItHolds(e, j) && HoldsAfresh(e.runs[j]) {
        assert OwnsWhatItHolds(d, j) && HoldsAfresh(d.runs[j]);
      }
    case Begins(_, _, _) =>
      forall j | 0 <= j < |e.runs| ensures OwnsWhatItHolds(e, j) && HoldsAfresh(e.runs[j]) {
        if j < |d.runs| {
          assert OwnsWhatItHolds(d, j) && HoldsAfresh(d.runs[j]);
        }
      }
    case Creates(id) => CreateOwns(d, id); OneRunMoved(d, e, id);
    case FindsTaken(id) => assert OwnsWhatItHolds(d, id); OneRunMoved(d, e, id);
    case CannotCreate(id) => assert OwnsWhatItHolds(d, id); OneRunMoved(d, e, id);
    case Removes(id, removed) => RemoveOwns(d, id, removed); OneRunMoved(d, e, id);
  }

  lemma CreateOwns(d: Disk, id: nat)
    requires Inv(d) && Enabled(d, Creates(id))
    ensures var e := Next(d, Creates(id)); OwnsWhatItHolds(e, id) && HoldsAfresh(e.runs[id])
  {
    assert OwnsWhatItHolds(d, id) && HoldsAfresh(d.runs[id]);
    var r, e := d.runs[id], Next(d, Creates(id));
    assert Held(e.runs[id]) == Held(r) + {Wanted(r)};
  }

  lemma RemoveOwns(d: Disk, id: nat, removed: bool)
    requires Inv(d) && Enabled(d, Removes(id, removed))
    ensures var e := Next(d, Removes(id, removed)); OwnsWhatItHolds(e, id) && HoldsAfresh(e.runs[id])
    ensures BundleOf(d.runs[id], d.runs[id].at.n) in d.files && d.files[BundleOf(d.runs[id], d.runs[id].at.n)] == OfRun(id)
  {
    assert OwnsWhatItHolds(d, id) && HoldsAfresh(d.runs[id]);
    var r, e := d.runs[id], Next(d, Removes(id, removed));
    assert BundleOf(r, r.at.n) in Held(r);
    assert Held(e.runs[id]) == if removed then Held(r) - {BundleOf(r, r.at.n)} else Held(r);
  }

  // --- every interleaving --------------------------------------------------------------------------

  ghost predicate Schedule(d: Disk, steps: seq<Step>)
    decreases |steps|
  {
    steps == [] || (Enabled(d, steps[0]) && Schedule(Next(d, steps[0]), steps[1..]))
  }

  ghost function After(d: Disk, steps: seq<Step>): Disk
    requires Schedule(d, steps)
    decreases |steps|
  {
    if steps == [] then d else After(Next(d, steps[0]), steps[1..])
  }

  lemma {:induction false} ScheduleKeepsInv(d: Disk, steps: seq<Step>)
    requires Inv(d) && Schedule(d, steps)
    ensures Inv(After(d, steps)) && Preserves(d, After(d, steps))
    decreases |steps|
  {
    if steps != [] {
      NextKeepsInv(d, steps[0]);
      ScheduleKeepsInv(Next(d, steps[0]), steps[1..]);
    }
  }

  function Existing(paths: set<string>): map<string, Owner> {
    map p | p in paths :: Outside
  }

  predicate Won(r: Run) {
    r.at.Done? && r.at.outcome.Claimed?
  }

  /** Everything a successful run may write to. */
  function Paths(r: Run): set<string>
    requires Won(r)
  {
    {BundleOf(r, r.at.outcome.n), ShotOf(r, r.at.outcome.n)}
  }

  /** On every interleaving, from any directory contents: what was there is still there, successful runs
      hold two files of one stem each and share none, and an unsuccessful run whose removals succeeded
      left nothing. */
  lemma CapturesAreExclusivePairs(existing: set<string>, steps: seq<Step>)
    requires Schedule(Disk(Existing(existing), []), steps)
    ensures var d := After(Disk(Existing(existing), []), steps);
            && (forall p :: p in existing ==> p in d.files && d.files[p].Outside?)
            && (forall i :: 0 <= i < |d.runs| && Won(d.runs[i]) ==>
                  |Paths(d.runs[i])| == 2 && forall p :: p in Paths(d.runs[i]) ==> p in d.files && d.files[p] == OfRun(i))
            && (forall i, j :: 0 <= i < j < |d.runs| && Won(d.runs[i]) && Won(d.runs[j]) ==> Paths(d.runs[i]) !! Paths(d.runs[j]))
            && (forall i :: 0 <= i < |d.runs| && d.runs[i].at.Done? && !Won(d.runs[i]) && d.runs[i].stranded == {} ==>
                  forall p :: p in d.files ==> d.files[p] != OfRun(i))
  {
    var d0 := Disk(Existing(existing), []);
    ScheduleKeepsInv(d0, steps);
    var d := After(d0, steps);
    forall i | 0 <= i < |d.runs| && Won(d.runs[i])
      ensures |Paths(d.runs[i])| == 2
      ensures forall p :: p in Paths(d.runs[i]) ==> p in d.files && d.files[p] == OfRun(i)
    {
      assert OwnsWhatItHolds(d, i);
      assert Paths(d.runs[i]) <= Held(d.runs[i]);
      var stem := StemAt(d.runs[i].base, d.runs[i].at.outcome.n);
      PathsDiffer(d.runs[i].dir, stem, stem);
    }
    forall i | 0 <= i < |d.runs| && d.runs[i].at.Done? && !Won(d.runs[i]) && d.runs[i].stranded == {}
      ensures forall p :: p in d.files ==> d.files[p] != OfRun(i)
    {
      assert OwnsWhatItHolds(d, i);
      assert Held(d.runs[i]) == {};
    }
    forall i, j | 0 <= i < j < |d.runs| && Won(d.runs[i]) && Won(d.runs[j]) ensures Paths(d.runs[i]) !! Paths(d.runs[j]) {
      if p :| p in Paths(d.runs[i]) && p in Paths(d.runs[j]) {
        assert false;
      }
    }
  }

  // --- one run undisturbed -------------------------------------------------------------------------

  /** What the file system answers to a run that is alone: which creates and which removals fail for a
      reason of their own. */
  datatype Faults = Faults(creates: set<string>, removals: set<string>)

  datatype Reserved = Reserved(files: set<string>, outcome: Outcome, warned: bool)

  /** The run from suffix `n` on. */
  function Reserve(r: Run, n: nat, files: set<string>, warned: bool, f: Faults): Reserved
    requires n <= r.maxSuffix + 1
    decreases r.maxSuffix + 1 - n
  {
    var bundle, shot := BundleOf(r, n), ShotOf(r, n);
    if n > r.maxSuffix then Reserved(files, Exhausted, warned)
    else if bundle in files then Reserve(r, n + 1, files, warned, f)
    else if bundle in f.creates then Reserved(files, Failed, warned)
    else if shot !in files && shot !in f.creates then Reserved(files + {bundle, shot}, Claimed(n), warned)
    else
      var stuck := bundle in f.removals;
      var left := if stuck then files + {bundle} else files;
      if shot in files then Reserve(r, n + 1, left, warned || stuck, f) else Reserved(left, Failed, warned || stuck)
  }

  class Directory {
    var files: set<string>

    constructor (files: set<string>)
      ensures this.files == files
    {
      this.files := files;
    }

    method CreateExclusive(path: string, f: Faults) returns (created: bool, taken: bool)
      modifies this
      ensures taken == (path in old(files)) && created == (path !in old(files) && path !in f.creates)
      ensures files == if created then old(files) + {path} else old(files)
    {
      taken := path in files;
      created := !taken && path !in f.creates;
      if created {
        files := files + {path};
      }
    }

    method Remove(path: string, f: Faults) returns (removed: bool)
      modifies this
      ensures removed == (path !in f.removals)
      ensures files == if removed then old(files) - {path} else old(files)
    {
      removed := path !in f.removals;
      if removed {
        files := files - {path};
      }
    }

    method ReserveFrameGrab(dir: string, base: string, maxSuffix: nat, f: Faults) returns (outcome: Outcome, warned: bool)
      modifies this
      ensures Reserved(files, outcome, warned) == Reserve(Started(dir, base, maxSuffix), 0, old(files), false, f)
    {
      ghost var run, was := Started(dir, base, maxSuffix), files;
      var baseDir := BaseDir(dir);
      warned := false;
      var n := 0;
      while n <= maxSuffix
        invariant 0 <= n <= maxSuffix + 1
        invariant Reserve(run, n, files, warned, f) == Reserve(run, 0, was, false, f)
        decreases maxSuffix + 1 - n
      {
        ghost var before := files;
        var stem := StemAt(base, n);
        var bundle, shot := BundlePath(baseDir, stem), ShotPath(baseDir, stem);
        PathsDiffer(baseDir, stem, stem);
        var created, taken := CreateExclusive(bundle, f);
        if !created {
          if taken {
            n := n + 1;
            continue;
          }
          return Failed, warned;
        }
        created, taken := CreateExclusive(shot, f);
        if !created {
          var removed := Remove(bundle, f);
          assert before + {bundle} - {bundle} == before;
          if !removed {
            warned := true;
          }
          if taken {
            n := n + 1;
            continue;
          }
          return Failed, warned;
        }
        assert before + {bundle} + {shot} == before + {bundle, shot};
        return Claimed(n), warned;
      }
      outcome := Exhausted;
    }
  }

  predicate Free(r: Run, n: nat, files: set<string>) {
    BundleOf(r, n) !in files && ShotOf(r, n) !in files
  }

  /** Without faults a run alone takes the least suffix whose two names are both free and changes nothing
      else; when there is none it changes nothing. */
  lemma {:induction false} TakesLeastFree(r: Run, n: nat, files: set<string>)
    requires n <= r.maxSuffix + 1
    ensures var o := Reserve(r, n, files, false, Faults({}, {}));
            && !o.outcome.Failed? && !o.warned
            && (o.outcome.Claimed? ==>
                  && n <= o.outcome.n <= r.maxSuffix && Free(r, o.outcome.n, files)
                  && (forall m :: n <= m < o.outcome.n ==> !Free(r, m, files))
                  && o.files == files + {BundleOf(r, o.outcome.n), ShotOf(r, o.outcome.n)})
            && (o.outcome.Exhausted? ==> o.files == files && forall m :: n <= m <= r.maxSuffix ==> !Free(r, m, files))
    decreases r.maxSuffix + 1 - n
  {
    if n <= r.maxSuffix && !Free(r, n, files) {
      TakesLeastFree(r, n + 1, files);
    }
  }

  /** The names by which a user finds two captures armed in the same second. */
  lemma SecondCaptureIsNumbered(dir: string, base: string, maxSuffix: nat)
    requires dir != "" && dir[|dir| - 1] != '/' && dir[|dir| - 1] != '\\' && maxSuffix > 0
    ensures var first := Reserve(Started(dir, base, maxSuffix), 0, {}, false, Faults({}, {}));
            var second := Reserve(Started(dir, base, maxSuffix), 0, first.files, false, Faults({}, {}));
            && first.outcome.Claimed? && second.outcome.Claimed?
            && first.files == {dir + "/" + base + ".prgbundle", dir + "/" + base + ".bmp"}
            && second.files == first.files + {dir + "/" + base + "-2" + ".prgbundle", dir + "/" + base + "-2" + ".bmp"}
  {
    var r := Started(dir, base, maxSuffix);
    assert BaseDir(dir) == dir;
    StemsAreNumbered(base, 0, 1);
    var b0, s0, b1, s1 := BundleOf(r, 0), ShotOf(r, 0), BundleOf(r, 1), ShotOf(r, 1);
    assert b0 == dir + "/" + base + ".prgbundle" && s0 == dir + "/" + base + ".bmp";
    assert dir + "/" + (base + "-2") == dir + "/" + base + "-2";
    PathsDiffer(dir, base, base + "-2");
    PathsDiffer(dir, base + "-2", base);
    assert |b1| == |b0| + 2 && |s1| == |s0| + 2;
    var first := Reserve(r, 0, {}, false, Faults({}, {}));
    assert first.files == {b0, s0};
    assert Reserve(r, 0, first.files, false, Faults({}, {})) == Reserve(r, 1, first.files, false, Faults({}, {}));
  }

  // --- the undisturbed run is one of the schedules -------------------------------------------------

  lemma Prepend(d: Disk, s: Step, steps: seq<Step>)
    requires Enabled(d, s) && Schedule(Next(d, s), steps)
    ensures Schedule(d, [s] + steps) && After(d, [s] + steps) == After(Next(d, s), steps)
  {
    assert ([s] + steps)[1..] == steps;
  }

  /** The run at suffix `n` of a disk, with the names of `r`. */
  predicate Trying(d: Disk, id: nat, r: Run, n: nat) {
    && id < |d.runs| && d.runs[id].at == Bundle(n) && n <= r.maxSuffix
    && d.runs[id].dir == r.dir && d.runs[id].base == r.base && d.runs[id].maxSuffix == r.maxSuffix
  }

  predicate EndsAs(e: Disk, id: nat, o: Reserved) {
    && id < |e.runs| && e.files.Keys == o.files && e.runs[id].at == Done(o.outcome)
    && (e.runs[id].stranded != {} <==> o.warned)
  }

  function Warned(d: Disk, id: nat): bool
    requires id < |d.runs|
  {
    d.runs[id].stranded != {}
  }

  /** Whatever the faults, the steps an undisturbed run takes are a schedule of the many-run machine and
      end in the very state the sequential reservation computes. */
  lemma {:induction false} ReserveIsSchedule(d: Disk, id: nat, r: Run, n: nat, f: Faults) returns (steps: seq<Step>)
    requires Trying(d, id, r, n)
    ensures Schedule(d, steps)
    ensures EndsAs(After(d, steps), id, Reserve(r, n, d.files.Keys, Warned(d, id), f))
    decreases r.maxSuffix - n, 1
  {
    var bundle, shot := BundleOf(r, n), ShotOf(r, n);
    var stem := StemAt(r.base, n);
    PathsDiffer(r.dir, stem, stem);
    if bundle in d.files {
      steps := Continue(d, FindsTaken(id), id, r, n, f);
    } else if bundle in f.creates {
      steps := [CannotCreate(id)];
      Prepend(d, CannotCreate(id), []);
    } else {
      var e := Next(d, Creates(id));
      assert e.files.Keys == d.files.Keys + {bundle};
      if shot !in d.files && shot !in f.creates {
        Prepend(e, Creates(id), []);
        Prepend(d, Creates(id), [Creates(id)]);
        steps := [Creates(id)] + [Creates(id)];
      } else {
        var s := if shot in d.files then FindsTaken(id) else CannotCreate(id);
        var g := Next(e, s);
        var removal := Removes(id, bundle !in f.removals);
        assert d.files.Keys + {bundle} - {bundle} == d.files.Keys;
        var last: seq<Step>;
        if shot in d.files {
          last := Continue(g, removal, id, r, n, f);
        } else {
          last := [removal];
          Prepend(g, removal, []);
        }
        Prepend(e, s, last);
        Prepend(d, Creates(id), [s] + last);
        steps := [Creates(id)] + ([s] + last);
      }
    }
  }

  /** After the step that gives suffix `n` up. */
  lemma {:induction false} Continue(d: Disk, s: Step, id: nat, r: Run, n: nat, f: Faults) returns (steps: seq<Step>)
    requires Enabled(d, s) && n <= r.maxSuffix && id < |d.runs|
    requires var e := Next(d, s);
             && id < |e.runs| && e.runs[id].at == NextName(r, n)
             && e.runs[id].dir == r.dir && e.runs[id].base == r.base && e.runs[id].maxSuffix == r.maxSuffix
    ensures Schedule(d, steps)
    ensures var e := Next(d, s);
            EndsAs(After(d, steps), id, Reserve(r, n + 1, e.files.Keys, Warned(e, id), f))
    decreases r.maxSuffix - n, 0
  {
    var e := Next(d, s);
    var more: seq<Step> := [];
    if n < r.maxSuffix {
      more := ReserveIsSchedule(e, id, r, n + 1, f);
    }
    Prepend(d, s, more);
    steps := [s] + more;
  }

  // --- the names themselves ------------------------------------------------------------------------

  function DigitValue(c: char): nat {
    if '0' <= c <= '9' then c as nat - '0' as nat else 0
  }

  /** The number a decimal numeral stands for. */
  function NumeralValue(s: string): nat {
    if s == "" then 0 else 10 * NumeralValue(s[..|s| - 1]) + DigitValue(s[|s| - 1])
  }

  lemma DigitReads(d: nat)
    requires d < 10
    ensures DigitValue(Digit(d)) == d && '0' <= Digit(d) <= '9' && (Digit(d) == '0' <==> d == 0)
  {
  }

  lemma {:induction false} DecimalReads(n: nat)
    ensures NumeralValue(Decimal(n)) == n && Decimal(n) != ""
    ensures forall i :: 0 <= i < |Decimal(n)| ==> '0' <= Decimal(n)[i] <= '9'
    ensures n > 0 ==> Decimal(n)[0] != '0'
  {
    if n < 10 {
      DigitReads(n);
      assert Decimal(n)[..0] == "";
    } else {
      DecimalReads(n / 10);
      DigitReads(n % 10);
      assert Decimal(n)[..|Decimal(n)| - 1] == Decimal(n / 10);
    }
  }

  /** The preferred name bears no number, the first collision a two, and no two attempts of a run share a
      name. */
  lemma StemsAreNumbered(base: string, n: nat, m: nat)
    ensures StemAt(base, 0) == base && StemAt(base, 1) == base + "-2"
    ensures n > 0 ==> exists s: string :: StemAt(base, n) == base + "-" + s && NumeralValue(s) == n + 1
    ensures StemAt(base, n) == StemAt(base, m) ==> n == m
  {
    assert Decimal(2) == "2";
    DecimalReads(n + 1);
    DecimalReads(m + 1);
    if n > 0 {
      assert StemAt(base, n) == base + "-" + Decimal(n + 1);
    }
    if n > 0 && m > 0 && StemAt(base, n) == StemAt(base, m) {
      SuffixesAgree(base + "-", Decimal(n + 1), Decimal(m + 1));
    }
  }

  lemma SuffixesAgree(a: string, b: string, c: string)
    requires a + b == a + c
    ensures b == c
  {
    assert b == (a + b)[|a|..] && c == (a + c)[|a|..];
  }

  /** The directory loses its trailing separators, but not the root its only one. */
  lemma {:induction false} DirectoryIsTrimmed(dir: string)
    requires dir != ""
    ensures var t := BaseDir(dir);
            && t != "" && t <= dir
            && (forall i :: |t| <= i < |dir| ==> dir[i] == '/' || dir[i] == '\\')
            && (|t| > 1 ==> t[|t| - 1] != '/' && t[|t| - 1] != '\\')
    ensures BaseDir("") == "."
    decreases |dir|
  {
    if |dir| > 1 && (dir[|dir| - 1] == '/' || dir[|dir| - 1] == '\\') {
      DirectoryIsTrimmed(dir[..|dir| - 1]);
    }
  }
}

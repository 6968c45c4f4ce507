/** Static thread-local storage below the thread pointer, variant II of section 3 of "ELF Handling For
    Thread-Local Storage". The alignment is the 64-bit mask expression of the source, bit by bit. */
module TlsLayout {
  import opened Wrappers

  const WORD: nat := 0x1_0000_0000_0000_0000

  // --- 64-bit arithmetic ---------------------------------------------------------------------------

  function Wrapped(x: nat): (r: nat)
    ensures r < WORD
    ensures x < WORD ==> r == x
  {
    x % WORD
  }

  function Not(x: nat): nat
    requires x < WORD
  {
    WORD - 1 - x
  }

  /** Bitwise and. */
  function And(x: nat, y: nat): (r: nat)
    ensures r <= x
  {
    if x == 0 then 0 else 2 * And(x / 2, y / 2) + (x % 2) * (y % 2)
  }

  function AlignUp(value: nat, align: nat): nat
    requires value < WORD && align < WORD
  {
    if align == 0 then value else And(Wrapped(value + align - 1), Not(align - 1))
  }

  // --- powers of two -------------------------------------------------------------------------------

  function Pow2(k: nat): (p: nat)
    ensures p >= 1
  {
    if k == 0 then 1 else 2 * Pow2(k - 1)
  }

  ghost predicate IsPow2(a: nat) {
    exists k: nat :: k < 64 && a == Pow2(k)
  }

  function Times(k: nat, a: nat): nat {
    k * a
  }

  ghost predicate Multiple(n: nat, a: nat) {
    exists k: nat :: n == Times(k, a)
  }

  /** `r` is the least multiple of `a` that is not below `v`. */
  ghost predicate LeastMultiple(r: nat, v: nat, a: nat) {
    Multiple(r, a) && r >= v && forall m: nat :: Multiple(m, a) && m >= v ==> m >= r
  }

  // --- the mask is a rounding ----------------------------------------------------------------------

  /** `x` with its `k` low bits cleared. */
  function Cleared(x: nat, k: nat): nat {
    if k == 0 then x else 2 * Cleared(x / 2, k - 1)
  }

  lemma {:induction false} ClearedIsFloor(x: nat, k: nat)
    ensures Cleared(x, k) <= x < Cleared(x, k) + Pow2(k)
    ensures Multiple(Cleared(x, k), Pow2(k))
  {
    if k == 0 {
      assert x == Times(x, Pow2(0));
    } else {
      ClearedIsFloor(x / 2, k - 1);
      var q: nat :| Cleared(x / 2, k - 1) == Times(q, Pow2(k - 1));
      DoubledTimes(q, Pow2(k - 1));
      assert Cleared(x, k) == Times(q, Pow2(k));
    }
  }

  lemma DoubledTimes(q: nat, a: nat)
    ensures Times(q, 2 * a) == 2 * Times(q, a)
  {
  }

  lemma {:induction false} AllOnes(x: nat, w: nat)
    requires x < Pow2(w)
    ensures And(x, Pow2(w) - 1) == x
  {
    if x > 0 {
      var y := Pow2(w) - 1;
      assert y / 2 == Pow2(w - 1) - 1 && y % 2 == 1;
      AllOnes(x / 2, w - 1);
    }
  }

  lemma {:induction false} Pow2Grows(j: nat, k: nat)
    requires j <= k
    ensures Pow2(j) <= Pow2(k)
    decreases k
  {
    if j < k {
      Pow2Grows(j, k - 1);
    }
  }

  /** And-ing a `w`-bit number with the complement of `2^k - 1` clears its low `k` bits. */
  lemma {:induction false} MaskClears(x: nat, k: nat, w: nat)
    requires x < Pow2(w) && k <= w
    ensures Pow2(k) <= Pow2(w) && And(x, Pow2(w) - Pow2(k)) == Cleared(x, k)
    decreases k
  {
    Pow2Grows(k, w);
    if k == 0 {
      AllOnes(x, w);
    } else if x == 0 {
      ClearedIsFloor(0, k);
    } else {
      MaskClears(x / 2, k - 1, w - 1);
      var half := Pow2(w - 1) - Pow2(k - 1);
      var y := Pow2(w) - Pow2(k);
      assert y == 2 * half && y / 2 == half && y % 2 == 0;
      assert And(x, y) == 2 * And(x / 2, half);
    }
  }

  lemma WordIsPow2()
    ensures Pow2(64) == WORD
  {
    assert Pow2(8) == 0x100;
    Pow2Adds(8, 8);
    Pow2Adds(16, 16);
    Pow2Adds(32, 32);
  }

  lemma {:induction false} Pow2Adds(a: nat, b: nat)
    ensures Pow2(a + b) == Pow2(a) * Pow2(b)
  {
    if b > 0 {
      Pow2Adds(a, b - 1);
      Reassociate(Pow2(a), Pow2(b - 1));
    }
  }

  lemma Reassociate(x: nat, y: nat)
    ensures 2 * (x * y) == x * (2 * y)
  {
  }

  lemma MultiplesApart(m: nat, n: nat, a: nat)
    requires Multiple(m, a) && Multiple(n, a) && m < n
    ensures m + a <= n
  {
    var i: nat :| m == Times(i, a);
    var j: nat :| n == Times(j, a);
    TimesOrder(i, j, a);
  }

  lemma TimesOrder(i: nat, j: nat, a: nat)
    ensures i < j ==> Times(i, a) + a <= Times(j, a)
    ensures i >= j ==> Times(i, a) >= Times(j, a)
  {
    if i < j {
      TimesStep(i, j - i, a);
      assert Times(j - i, a) >= a by { TimesStep(1, j - i - 1, a); }
    } else {
      TimesStep(j, i - j, a);
    }
  }

  lemma TimesStep(i: nat, d: nat, a: nat)
    ensures Times(i + d, a) == Times(i, a) + Times(d, a)
  {
  }

  /** For a power of two the mask form rounds up, to the least multiple, exactly when the sum inside it
      does not overflow. */
  lemma AlignUpRounds(value: nat, align: nat)
    requires value < WORD && IsPow2(align) && align < WORD
    ensures value + align - 1 < WORD ==> LeastMultiple(AlignUp(value, align), value, align)
    ensures LeastMultiple(AlignUp(value, align), value, align) <==> value + align - 1 < WORD
    ensures value + align - 1 < WORD ==> AlignUp(value, align) < value + align
  {
    var k: nat :| k < 64 && align == Pow2(k);
    WordIsPow2();
    var x := Wrapped(value + align - 1);
    MaskClears(x, k, 64);
    assert AlignUp(value, align) == Cleared(x, k);
    ClearedIsFloor(x, k);
    var r := Cleared(x, k);
    if value + align - 1 < WORD {
      forall m: nat | Multiple(m, align) && m >= value ensures m >= r {
        if m < r {
          MultiplesApart(m, r, align);
        }
      }
    } else {
      OverflowIsSmall(value, align);
    }
  }

  lemma OverflowIsSmall(value: nat, align: nat)
    requires value < WORD && align < WORD && value + align - 1 >= WORD
    ensures Wrapped(value + align - 1) < value
  {
  }

  // --- the layout ----------------------------------------------------------------------------------

  /** A module's block; module 0 is not used. */
  datatype Module = Module(memsz: nat, align: nat)

  datatype Layout = Layout(below: seq<nat>, total: nat)

  predicate Words(descs: seq<Module>) {
    forall i :: 0 <= i < |descs| ==> descs[i].memsz < WORD && descs[i].align < WORD
  }

  function AlignOf(m: Module): nat {
    if m.align != 0 then m.align else 16
  }

  function Placed(offset: nat, m: Module): (r: nat)
    requires offset < WORD && AlignOf(m) < WORD
    ensures r < WORD
  {
    AlignUp(Wrapped(offset + m.memsz), AlignOf(m))
  }

  /** The distance from the thread pointer to block `i`. */
  function Below(descs: seq<Module>, i: nat): (r: nat)
    requires Words(descs) && i < |descs|
    ensures r < WORD
  {
    if i == 0 then 0
    else
      assert AlignOf(descs[i]) < WORD;
      Placed(Below(descs, i - 1), descs[i])
  }

  function Larger(a: nat, b: nat): nat {
    if a > b then a else b
  }

  /** The largest alignment of the modules up to `i`, and at least 16. */
  function MaxAlign(descs: seq<Module>, i: nat): (r: nat)
    requires Words(descs) && i < |descs|
    ensures 16 <= r < WORD
  {
    if i == 0 then 16 else Larger(AlignOf(descs[i]), MaxAlign(descs, i - 1))
  }

  function AreaAlign(descs: seq<Module>): (r: nat)
    requires Words(descs) && descs != []
    ensures 64 <= r < WORD
  {
    Larger(MaxAlign(descs, |descs| - 1), 64)
  }

  function Total(descs: seq<Module>): nat
    requires Words(descs) && descs != []
  {
    AlignUp(Below(descs, |descs| - 1), AreaAlign(descs))
  }

  lemma LayoutStarts(descs: seq<Module>)
    requires Words(descs) && descs != []
    ensures Below(descs, 0) == 0 && MaxAlign(descs, 0) == 16
  {
  }

  lemma LayoutStep(descs: seq<Module>, i: nat)
    requires Words(descs) && 0 < i < |descs|
    ensures AlignOf(descs[i]) < WORD
    ensures Below(descs, i) == Placed(Below(descs, i - 1), descs[i])
    ensures MaxAlign(descs, i) == Larger(AlignOf(descs[i]), MaxAlign(descs, i - 1))
  {
  }

  method MakeStaticTlsLayout(descs: Option<seq<Module>>, count: nat) returns (below: array<nat>, total: nat)
    requires descs.Some? ==> |descs.value| == count && Words(descs.value)
    ensures fresh(below) && below.Length == count
    ensures descs.None? || count == 0 ==> total == 0 && forall i :: 0 <= i < count ==> below[i] == 0
    ensures descs.Some? && count > 0 ==>
              && total == Total(descs.value)
              && forall i :: 0 <= i < count ==> below[i] == Below(descs.value, i)
  {
    below := new nat[count](_ => 0);
    total := 0;
    if descs.None? || count == 0 {
      return;
    }
    var offset, maxAlign := PlaceModules(descs.value, below);
    hide AlignUp, Below, MaxAlign;
    total := AlignUp(offset, if maxAlign < 64 then 64 else maxAlign);
  }

  /** The loop over the modules. */
  method PlaceModules(descs: seq<Module>, below: array<nat>) returns (offset: nat, maxAlign: nat)
    requires Words(descs) && descs != [] && below.Length == |descs| && below[0] == 0
    modifies below
    ensures offset == Below(descs, |descs| - 1) && maxAlign == MaxAlign(descs, |descs| - 1)
    ensures forall i :: 0 <= i < |descs| ==> below[i] == Below(descs, i)
  {
    hide Placed, AlignUp, AlignOf, Below, MaxAlign;
    LayoutStarts(descs);
    offset, maxAlign := 0, 16;
    var i := 1;
    while i < |descs|
      invariant 1 <= i <= |descs|
      invariant offset == Below(descs, i - 1) && maxAlign == MaxAlign(descs, i - 1)
      invariant forall j :: 0 <= j < i ==> below[j] == Below(descs, j)
    {
      LayoutStep(descs, i);
      var align := AlignOf(descs[i]);
      if align > maxAlign {
        maxAlign := align;
      }
      offset := Placed(offset, descs[i]);
      below[i] := offset;
      i := i + 1;
    }
  }

  // --- what the layout guarantees ------------------------------------------------------------------

  /** The modules' alignments are powers of two, or zero. */
  ghost predicate Alignable(descs: seq<Module>) {
    forall i :: 0 < i < |descs| ==> IsPow2(AlignOf(descs[i]))
  }

  predicate FitsAt(descs: seq<Module>, i: nat)
    requires Words(descs) && 0 < i < |descs|
  {
    Below(descs, i - 1) + descs[i].memsz + AlignOf(descs[i]) - 1 < WORD
  }

  /** No sum leaves 64 bits. */
  predicate Fits(descs: seq<Module>)
    requires Words(descs) && descs != []
  {
    && (forall i :: 0 < i < |descs| ==> FitsAt(descs, i))
    && Below(descs, |descs| - 1) + AreaAlign(descs) - 1 < WORD
  }

  /** Each block starts as close below the previous one as its size and alignment allow. */
  lemma BlockIsPacked(descs: seq<Module>, i: nat)
    requires Words(descs) && 0 < i < |descs| && Alignable(descs) && Fits(descs)
    ensures LeastMultiple(Below(descs, i), Below(descs, i - 1) + descs[i].memsz, AlignOf(descs[i]))
    ensures Below(descs, i) >= Below(descs, i - 1) + descs[i].memsz && Multiple(Below(descs, i), AlignOf(descs[i]))
  {
    hide AlignUp, And;
    assert FitsAt(descs, i) && IsPow2(AlignOf(descs[i]));
    assert AlignOf(descs[i]) < WORD;
    AlignUpRounds(Below(descs, i - 1) + descs[i].memsz, AlignOf(descs[i]));
  }

  lemma {:induction false} BelowGrows(descs: seq<Module>, i: nat, j: nat)
    requires Words(descs) && i <= j < |descs| && Alignable(descs) && Fits(descs)
    ensures Below(descs, i) <= Below(descs, j)
    decreases j
  {
    hide Below, LeastMultiple, Multiple, AlignOf, Alignable, Fits;
    if i < j {
      BelowGrows(descs, i, j - 1);
      BlockIsPacked(descs, j);
    }
  }

  lemma Pow2Literals()
    ensures IsPow2(16) && IsPow2(64)
  {
    assert Pow2(4) == 16;
    assert Pow2(6) == 64;
  }

  lemma {:induction false} MaxAlignIsLargest(descs: seq<Module>, n: nat)
    requires Words(descs) && n < |descs| && Alignable(descs)
    ensures IsPow2(MaxAlign(descs, n))
    ensures forall i :: 0 < i <= n ==> AlignOf(descs[i]) <= MaxAlign(descs, n)
  {
    Pow2Literals();
    if n > 0 {
      MaxAlignIsLargest(descs, n - 1);
    }
  }

  lemma {:induction false} PowersDivide(j: nat, k: nat)
    requires j <= k
    ensures Multiple(Pow2(k), Pow2(j))
    decreases k
  {
    if j == k {
      assert Pow2(k) == Times(1, Pow2(j));
    } else {
      PowersDivide(j, k - 1);
      var q: nat :| Pow2(k - 1) == Times(q, Pow2(j));
      TimesStep(q, q, Pow2(j));
      assert Pow2(k) == Times(q + q, Pow2(j));
    }
  }

  lemma SmallerDivides(a: nat, b: nat)
    requires IsPow2(a) && IsPow2(b) && a <= b
    ensures Multiple(b, a)
  {
    var j: nat :| j < 64 && a == Pow2(j);
    var k: nat :| k < 64 && b == Pow2(k);
    if j > k {
      Pow2Grows(k + 1, j);
    } else {
      PowersDivide(j, k);
    }
  }

  lemma MultipleOfMultiple(n: nat, b: nat, a: nat)
    requires Multiple(n, b) && Multiple(b, a)
    ensures Multiple(n, a)
  {
    var i: nat :| n == Times(i, b);
    var j: nat :| b == Times(j, a);
    ProductReassociates(i, j, a);
    assert n == Times(i * j, a);
  }

  lemma ProductReassociates(i: nat, j: nat, a: nat)
    ensures i * (j * a) == (i * j) * a
  {
  }

  lemma DifferenceOfMultiples(m: nat, n: nat, a: nat)
    requires Multiple(m, a) && Multiple(n, a) && n <= m
    ensures Multiple(m - n, a)
  {
    var i: nat :| m == Times(i, a);
    var j: nat :| n == Times(j, a);
    if i >= j {
      TimesStep(j, i - j, a);
      assert m - n == Times(i - j, a);
    } else {
      TimesOrder(j, i, a);
      assert m - n == Times(0, a);
    }
  }

  /** The whole area: a multiple of 64 and of every alignment, and no smaller than any block's distance. */
  lemma AreaIsAligned(descs: seq<Module>)
    requires Words(descs) && descs != [] && Alignable(descs) && Fits(descs)
    ensures IsPow2(AreaAlign(descs)) && LeastMultiple(Total(descs), Below(descs, |descs| - 1), AreaAlign(descs))
    ensures Multiple(Total(descs), 64)
    ensures forall i :: 0 < i < |descs| ==> Multiple(AreaAlign(descs), AlignOf(descs[i])) && Multiple(Total(descs), AlignOf(descs[i]))
  {
    var n, area := |descs| - 1, AreaAlign(descs);
    Pow2Literals();
    MaxAlignIsLargest(descs, n);
    AlignUpRounds(Below(descs, n), area);
    SmallerDivides(64, area);
    MultipleOfMultiple(Total(descs), area, 64);
    forall i | 0 < i < |descs| ensures Multiple(area, AlignOf(descs[i])) && Multiple(Total(descs), AlignOf(descs[i])) {
      SmallerDivides(AlignOf(descs[i]), area);
      MultipleOfMultiple(Total(descs), area, AlignOf(descs[i]));
    }
  }

  lemma TotalCovers(descs: seq<Module>)
    requires Words(descs) && descs != [] && Alignable(descs) && Fits(descs)
    ensures Total(descs) >= Below(descs, |descs| - 1)
  {
    AreaIsAligned(descs);
  }

  /** Where block `i` begins when the thread pointer is `tp`. */
  function Start(descs: seq<Module>, tp: nat, i: nat): int
    requires Words(descs) && i < |descs|
  {
    tp - Below(descs, i)
  }

  /** With power-of-two alignments and no overflow: the blocks do not overlap, all lie inside the area
      below the thread pointer, and all are aligned wherever the thread pointer is. */
  lemma BlocksAreApartAndAligned(descs: seq<Module>, tp: nat)
    requires Words(descs) && descs != [] && Alignable(descs) && Fits(descs)
    requires tp >= Total(descs) && Multiple(tp, AreaAlign(descs))
    ensures forall i, j :: 0 < i < j < |descs| ==> Start(descs, tp, j) + descs[j].memsz <= Start(descs, tp, i)
    ensures forall i :: 0 < i < |descs| ==>
              && tp - Total(descs) <= Start(descs, tp, i)
              && Start(descs, tp, i) + descs[i].memsz <= tp
              && Multiple(Below(descs, i), AlignOf(descs[i]))
              && Multiple(Start(descs, tp, i), AlignOf(descs[i]))
  {
    hide Below, LeastMultiple, Multiple, AlignOf, AreaAlign, Total, IsPow2;
    AreaIsAligned(descs);
    TotalCovers(descs);
    forall i, j | 0 < i < j < |descs| ensures Start(descs, tp, j) + descs[j].memsz <= Start(descs, tp, i) {
      BlockIsPacked(descs, j);
      BelowGrows(descs, i, j - 1);
    }
    forall i | 0 < i < |descs|
      ensures tp - Total(descs) <= Start(descs, tp, i)
      ensures Start(descs, tp, i) + descs[i].memsz <= tp
      ensures Multiple(Below(descs, i), AlignOf(descs[i])) && Multiple(Start(descs, tp, i), AlignOf(descs[i]))
    {
      BlockIsPacked(descs, i);
      BelowGrows(descs, i, |descs| - 1);
      MultipleOfMultiple(tp, AreaAlign(descs), AlignOf(descs[i]));
      DifferenceOfMultiples(tp, Below(descs, i), AlignOf(descs[i]));
    }
  }

  /** A module that asks for no alignment gets 16, one that asks gets what it asks for, and the area gets at
      least 64. */
  lemma AlignmentsAsAsked(descs: seq<Module>, i: nat)
    requires Words(descs) && 0 < i < |descs| && Alignable(descs) && Fits(descs)
    ensures Multiple(Below(descs, i), if descs[i].align == 0 then 16 else descs[i].align)
    ensures AreaAlign(descs) >= 64 && AreaAlign(descs) >= (if descs[i].align == 0 then 16 else descs[i].align)
    ensures AreaAlign(descs) == 64 || exists j :: 0 < j < |descs| && AreaAlign(descs) == descs[j].align
  {
    BlockIsPacked(descs, i);
    MaxAlignIsLargest(descs, |descs| - 1);
    MaxAlignIsAsked(descs, |descs| - 1);
  }

  lemma {:induction false} MaxAlignIsAsked(descs: seq<Module>, n: nat)
    requires Words(descs) && n < |descs|
    ensures MaxAlign(descs, n) == 16 || exists j :: 0 < j <= n && MaxAlign(descs, n) == descs[j].align
  {
    if n > 0 {
      MaxAlignIsAsked(descs, n - 1);
    }
  }
}

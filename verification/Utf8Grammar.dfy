/** Well-formed UTF-8 by the byte ranges of section 4 of RFC 3629, well-formed UTF-16 by section 2 of
    RFC 2781, and what the text-entry codecs make of either. */
module Utf8Grammar {
  import opened ImeText

  predicate Tail(b: Byte) {
    0x80 <= b <= 0xBF
  }

  predicate One(s: seq<Byte>) {
    |s| >= 1 && s[0] <= 0x7F
  }

  predicate Two(s: seq<Byte>) {
    |s| >= 2 && 0xC2 <= s[0] <= 0xDF && Tail(s[1])
  }

  predicate Three(s: seq<Byte>) {
    && |s| >= 3 && Tail(s[2])
    && (|| (s[0] == 0xE0 && 0xA0 <= s[1] <= 0xBF)
        || (0xE1 <= s[0] <= 0xEC && Tail(s[1]))
        || (s[0] == 0xED && 0x80 <= s[1] <= 0x9F)
        || (0xEE <= s[0] <= 0xEF && Tail(s[1])))
  }

  predicate Four(s: seq<Byte>) {
    && |s| >= 4 && Tail(s[2]) && Tail(s[3])
    && (|| (s[0] == 0xF0 && 0x90 <= s[1] <= 0xBF)
        || (0xF1 <= s[0] <= 0xF3 && Tail(s[1]))
        || (s[0] == 0xF4 && 0x80 <= s[1] <= 0x8F))
  }

  /** How long the character is that a text begins with, or zero. */
  function Width(s: seq<Byte>): (w: nat)
    ensures w <= |s|
  {
    if One(s) then 1 else if Two(s) then 2 else if Three(s) then 3 else if Four(s) then 4 else 0
  }

  predicate WellFormed(s: seq<Byte>) {
    s == [] || (Width(s) > 0 && WellFormed(s[Width(s)..]))
  }

  function Value(s: seq<Byte>): nat
    requires Width(s) > 0
  {
    if One(s) then s[0]
    else if Two(s) then Offset(s[0], 0xC0) * 0x40 + Offset(s[1], 0x80)
    else if Three(s) then Offset(s[0], 0xE0) * 0x1000 + Offset(s[1], 0x80) * 0x40 + Offset(s[2], 0x80)
    else Offset(s[0], 0xF0) * 0x4_0000 + Offset(s[1], 0x80) * 0x1000 + Offset(s[2], 0x80) * 0x40 + Offset(s[3], 0x80)
  }

  function Offset(b: Byte, base: nat): nat
    requires b >= base
  {
    b as int - base
  }

  lemma ValueIsScalar(s: seq<Byte>)
    requires Width(s) > 0
    ensures Value(s) < 0x11_0000 && !(0xD800 <= Value(s) <= 0xDFFF)
  {
  }

  /** The characters a well-formed text carries. */
  function Values(s: seq<Byte>): (cps: seq<CodePoint>)
    requires WellFormed(s)
    ensures Scalars(cps)
  {
    if s == [] then []
    else
      ValueIsScalar(s);
      [Value(s)] + Values(s[Width(s)..])
  }

  // --- writing -------------------------------------------------------------------------------------

  lemma OneCharacter(cp: CodePoint, rest: seq<Byte>)
    requires cp < 0x11_0000
    ensures var s := BytesOf(cp) + rest;
            if 0xD800 <= cp <= 0xDFFF then Width(s) == 0
            else Width(s) == |BytesOf(cp)| && Value(s) == cp && s[Width(s)..] == rest
  {
    var s, b := BytesOf(cp) + rest, BytesOf(cp);
    assert s[|b|..] == rest;
    assert s[0] == b[0];
    assert |b| > 1 ==> s[1] == b[1];
    assert |b| > 2 ==> s[2] == b[2];
    assert |b| > 3 ==> s[3] == b[3];
    ShiftedBack(cp);
  }

  /** What is written of code points is well-formed UTF-8 exactly when none is a surrogate, and then it
      carries those code points. */
  lemma {:induction false} WrittenIsWellFormed(cps: seq<CodePoint>)
    requires Encodable(cps)
    ensures WellFormed(Utf8(cps)) <==> Scalars(cps)
    ensures Scalars(cps) ==> Values(Utf8(cps)) == cps
  {
    if cps != [] {
      var rest := Utf8(cps[1..]);
      OneCharacter(cps[0], rest);
      WrittenIsWellFormed(cps[1..]);
      assert cps == [cps[0]] + cps[1..];
      hide Width, Value, BytesOf;
      ScalarsStep(cps[0], cps[1..]);
      assert |BytesOf(cps[0]) + rest| > 0 by { BytesAreSome(cps[0]); }
    }
  }

  lemma BytesAreSome(cp: CodePoint)
    ensures |BytesOf(cp)| > 0
  {
  }

  // --- reading -------------------------------------------------------------------------------------

  lemma ReadsCharacter(s: seq<Byte>)
    requires Width(s) > 0
    ensures LeadOf(s[0]).Opens? && LeadOf(s[0]).length == Width(s) && SequenceAt(s) == Value(s)
  {
    var l := LeadOf(s[0]);
    assert l.Opens? && l.length == Width(s);
    var more := s[1..l.length];
    AccumulatedFits(l.bits, more);
    assert |more| > 0 ==> more[0] == s[1] && s[1] % 64 == Offset(s[1], 0x80);
    assert |more| > 1 ==> more[1] == s[2] && s[2] % 64 == Offset(s[2], 0x80);
    assert |more| > 2 ==> more[2] == s[3] && s[3] % 64 == Offset(s[3], 0x80);
  }

  lemma {:induction false} ReadsWellFormed(s: seq<Byte>)
    requires WellFormed(s)
    ensures Decoded(s) == Values(s)
  {
    if s != [] {
      ReadsCharacter(s);
      ReadsWellFormed(s[Width(s)..]);
    }
  }

  lemma SameCharacter(a: seq<Byte>, behind: seq<Byte>)
    requires Width(a) > 0
    ensures var s := a + behind;
            Width(s) == Width(a) && Value(s) == Value(a) && s[Width(s)..] == a[Width(a)..] + behind
  {
    var s := a + behind;
    assert forall i :: 0 <= i < |a| ==> s[i] == a[i];
  }

  /** Behind well-formed text the reader goes on as it would from the start. */
  lemma {:induction false} ReadsOn(a: seq<Byte>, behind: seq<Byte>)
    requires WellFormed(a)
    ensures Decoded(a + behind) == Values(a) + Decoded(behind)
    decreases |a|
  {
    if a == [] {
      assert a + behind == behind;
    } else {
      SameCharacter(a, behind);
      ReadsCharacter(a + behind);
      ReadsOn(a[Width(a)..], behind);
      hide Width, Value, SequenceAt, LeadOf;
      var v, more := Value(a), Values(a[Width(a)..]);
      assert [v] + (more + Decoded(behind)) == [v] + more + Decoded(behind);
    }
  }

  /** A byte that opens nothing is passed over; a character the text breaks off in ends the reading. */
  lemma DamagedText(a: seq<Byte>, stray: Byte, behind: seq<Byte>, cut: seq<Byte>)
    requires WellFormed(a) && (0x80 <= stray <= 0xBF || stray >= 0xF8)
    requires cut != [] && cut[0] < 0xF8
    requires |cut| < (if cut[0] >= 0xF0 then 4 else if cut[0] >= 0xE0 then 3 else if cut[0] >= 0xC0 then 2 else 0)
    ensures Decoded(a + ([stray] + behind)) == Values(a) + Decoded(behind)
    ensures Decoded(a + cut) == Values(a)
  {
    ReadsOn(a, [stray] + behind);
    ReadsOn(a, cut);
    StrayIsPassed(stray, behind);
    CutOffEnds(cut);
    hide WellFormed, LeadOf;
    assert Values(a) + [] == Values(a);
  }

  lemma StrayIsPassed(stray: Byte, behind: seq<Byte>)
    requires 0x80 <= stray <= 0xBF || stray >= 0xF8
    ensures Decoded([stray] + behind) == Decoded(behind)
  {
    assert ([stray] + behind)[1..] == behind;
    assert LeadOf(stray).Stray?;
  }

  lemma CutOffEnds(cut: seq<Byte>)
    requires cut != [] && cut[0] < 0xF8
    requires |cut| < (if cut[0] >= 0xF0 then 4 else if cut[0] >= 0xE0 then 3 else if cut[0] >= 0xC0 then 2 else 0)
    ensures Decoded(cut) == []
  {
    assert LeadOf(cut[0]).Opens? && LeadOf(cut[0]).length > |cut|;
  }

  /** What is written into the guest's buffer of any well-formed UTF-8 is the UTF-16 of its longest run of
      characters that fits, none split. */
  lemma BufferHoldsLongestPrefix(s: seq<Byte>, maxLen: nat) returns (k: nat)
    requires WellFormed(s)
    ensures k <= |Values(s)|
    ensures var written := Utf16(Fitting(Decoded(s), maxLen));
            written == Utf16(Values(s)[..k]) && |written| <= maxLen && CodePoints(written) == Values(s)[..k]
    ensures forall j :: k < j <= |Values(s)| ==> |Utf16(Values(s)[..j])| > maxLen
  {
    ReadsWellFormed(s);
    DecodingInverts(Values(s));
    k := WritesLongestPrefix(Values(s), maxLen);
  }

  // --- UTF-16 --------------------------------------------------------------------------------------

  /** Surrogates stand in pairs, the high one first. */
  predicate WellFormedUnits(units: seq<CodeUnit>) {
    units == [] ||
    (if 0xD800 <= units[0] <= 0xDBFF then |units| >= 2 && 0xDC00 <= units[1] <= 0xDFFF && WellFormedUnits(units[2..])
     else !(0xDC00 <= units[0] <= 0xDFFF) && WellFormedUnits(units[1..]))
  }

  /** Ten bits from each half, above the first plane; and every code point up there has one pair. */
  lemma PairsCarryTwentyBits(high: CodeUnit, low: CodeUnit, cp: CodePoint)
    requires High(high) && Low(low) && 0x1_0000 <= cp < 0x11_0000
    ensures Joined(high, low) == 0x1_0000 + (high % 0x400) * 0x400 + low % 0x400
    ensures 0x1_0000 <= Joined(high, low) < 0x11_0000
    ensures |UnitsOf(cp)| == 2 && High(UnitsOf(cp)[0]) && Low(UnitsOf(cp)[1])
    ensures UnitsOf(cp) == [high, low] <==> Joined(high, low) == cp
  {
    JoinedSplits(high, low);
    var h, l := UnitsOf(cp)[0], UnitsOf(cp)[1];
    assert Joined(h, l) == cp;
  }

  lemma ScalarsStep(cp: CodePoint, rest: seq<CodePoint>)
    ensures Scalars([cp] + rest) <==> !(0xD800 <= cp <= 0xDFFF) && cp < 0x11_0000 && Scalars(rest)
  {
    var cps := [cp] + rest;
    assert forall i :: 0 <= i < |rest| ==> cps[i + 1] == rest[i];
    assert cps[0] == cp;
  }

  lemma {:induction false} UnitsAreScalars(units: seq<CodeUnit>)
    ensures WellFormedUnits(units) <==> Scalars(CodePoints(units))
  {
    if units != [] {
      var n := if Paired(units) then 2 else 1;
      var cps, rest := CodePoints(units), CodePoints(units[n..]);
      UnitsAreScalars(units[n..]);
      assert cps == [cps[0]] + rest;
      if Paired(units) {
        JoinedSplits(units[0], units[1]);
        assert cps[0] == Joined(units[0], units[1]) >= 0x1_0000;
      }
      ScalarsStep(cps[0], rest);
    }
  }

  /** The host's text field is handed well-formed UTF-8 exactly when the guest's text was well-formed
      UTF-16, and then the same characters. */
  lemma HostTextIsWellFormed(text: seq<CodeUnit>)
    ensures WellFormed(Utf8(CodePoints(text))) <==> WellFormedUnits(text)
    ensures WellFormedUnits(text) ==> Values(Utf8(CodePoints(text))) == CodePoints(text)
  {
    PairingLosesNothing(text);
    UnitsAreScalars(text);
    WrittenIsWellFormed(CodePoints(text));
  }
}

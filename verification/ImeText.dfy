/** The text-entry codec pair: guest UTF-16 read as UTF-8 for the host's text field, and the field's
    UTF-8 written back into the guest's bounded UTF-16 buffer. Shifts and masks are written as the
    arithmetic they amount to; every `|` of the source joins disjoint bits. */
module ImeText {
  import opened Wrappers

  const CAP: nat := 4096

  type CodeUnit = x: int | 0 <= x < 0x10000
  type Byte = x: int | 0 <= x < 256
  /** What four bytes can carry; encodable code points end at 0x10FFFF. */
  type CodePoint = x: int | 0 <= x < 0x20_0000

  predicate High(u: CodeUnit) {
    0xD800 <= u <= 0xDBFF
  }

  predicate Low(u: CodeUnit) {
    0xDC00 <= u <= 0xDFFF
  }

  predicate Encodable(cps: seq<CodePoint>) {
    forall i :: 0 <= i < |cps| ==> cps[i] < 0x11_0000
  }

  /** Unicode scalar values: encodable and no surrogate. */
  predicate Scalars(cps: seq<CodePoint>) {
    forall i :: 0 <= i < |cps| ==> cps[i] < 0x11_0000 && !(0xD800 <= cps[i] <= 0xDFFF)
  }

  // --- UTF-16 --------------------------------------------------------------------------------------

  function Joined(high: CodeUnit, low: CodeUnit): CodePoint
    requires High(high) && Low(low)
  {
    0x10000 + (high - 0xD800) * 0x400 + (low - 0xDC00)
  }

  predicate Paired(units: seq<CodeUnit>) {
    |units| >= 2 && High(units[0]) && Low(units[1])
  }

  /** A lone surrogate counts as a code point of its own. */
  function CodePoints(units: seq<CodeUnit>): seq<CodePoint> {
    if units == [] then []
    else if Paired(units) then [Joined(units[0], units[1])] + CodePoints(units[2..])
    else [units[0]] + CodePoints(units[1..])
  }

  function UnitsOf(cp: CodePoint): (u: seq<CodeUnit>)
    ensures 1 <= |u| <= 2
  {
    if cp < 0x10000 then [cp]
    else [0xD800 + (cp - 0x10000) / 0x400, 0xDC00 + (cp - 0x10000) % 0x400]
  }

  function Utf16(cps: seq<CodePoint>): seq<CodeUnit> {
    if cps == [] then [] else UnitsOf(cps[0]) + Utf16(cps[1..])
  }

  // --- UTF-8 ---------------------------------------------------------------------------------------

  function BytesOf(cp: CodePoint): seq<Byte> {
    if cp < 0x80 then [cp]
    else if cp < 0x800 then [0xC0 + cp / 64, 0x80 + cp % 64]
    else if cp < 0x10000 then [0xE0 + cp / 4096, 0x80 + cp / 64 % 64, 0x80 + cp % 64]
    else [0xF0 + cp / 262144, 0x80 + cp / 4096 % 64, 0x80 + cp / 64 % 64, 0x80 + cp % 64]
  }

  function Utf8(cps: seq<CodePoint>): seq<Byte> {
    if cps == [] then [] else BytesOf(cps[0]) + Utf8(cps[1..])
  }

  /** What a first byte announces: its payload and the length of the sequence it opens. */
  datatype Lead = Stray | Opens(bits: nat, length: nat)

  function LeadOf(c: Byte): (l: Lead)
    ensures l.Opens? ==> 1 <= l.length <= 4
  {
    if c < 0x80 then Opens(c, 1)
    else if c / 32 == 0x6 then Opens(c % 32, 2)
    else if c / 16 == 0xE then Opens(c % 16, 3)
    else if c / 8 == 0x1E then Opens(c % 8, 4)
    else Stray
  }

  /** The payload of a sequence with its continuation bytes shifted in, whatever their top bits. */
  function Accumulated(bits: nat, more: seq<Byte>): nat {
    if more == [] then bits else Accumulated(bits, more[..|more| - 1]) * 64 + more[|more| - 1] % 64
  }

  function SequenceAt(bytes: seq<Byte>): (cp: CodePoint)
    requires bytes != [] && LeadOf(bytes[0]).Opens? && LeadOf(bytes[0]).length <= |bytes|
  {
    var l := LeadOf(bytes[0]);
    AccumulatedFits(l.bits, bytes[1..l.length]);
    Accumulated(l.bits, bytes[1..l.length])
  }

  lemma AccumulatedFits(bits: nat, more: seq<Byte>)
    ensures |more| == 0 ==> Accumulated(bits, more) == bits
    ensures |more| == 1 ==> Accumulated(bits, more) == bits * 64 + more[0] % 64
    ensures |more| == 2 ==> Accumulated(bits, more) == (bits * 64 + more[0] % 64) * 64 + more[1] % 64
    ensures |more| == 3 ==>
              Accumulated(bits, more) == ((bits * 64 + more[0] % 64) * 64 + more[1] % 64) * 64 + more[2] % 64
  {
    if |more| == 2 {
      assert more[..1][..0] == [];
    }
    if |more| == 3 {
      assert more[..2][..1] == more[..1] && more[..1][..0] == [];
    }
  }

  /** How the writer reads any bytes at all: bytes that open nothing are passed over, and a sequence
      cut off by the end of the text ends the reading. */
  function Decoded(bytes: seq<Byte>): seq<CodePoint> {
    if bytes == [] then []
    else if LeadOf(bytes[0]).Stray? then Decoded(bytes[1..])
    else if LeadOf(bytes[0]).length > |bytes| then []
    else [SequenceAt(bytes)] + Decoded(bytes[LeadOf(bytes[0]).length..])
  }

  /** The code points written before the first that no longer fits. */
  function Fitting(cps: seq<CodePoint>, room: nat): seq<CodePoint> {
    if cps == [] || |UnitsOf(cps[0])| > room then []
    else [cps[0]] + Fitting(cps[1..], room - |UnitsOf(cps[0])|)
  }

  // --- the two methods -----------------------------------------------------------------------------

  /** The guest's string: what precedes its NUL, but never more than 4096 units. */
  function Text(memory: seq<CodeUnit>, limit: nat): (text: seq<CodeUnit>)
    ensures |text| <= limit && text <= memory
    ensures |text| < limit && |text| < |memory| ==> memory[|text|] == 0
    ensures forall i :: 0 <= i < |text| ==> text[i] != 0
  {
    if limit == 0 || memory == [] || memory[0] == 0 then [] else [memory[0]] + Text(memory[1..], limit - 1)
  }

  /** Readable as the reader reads it: 4096 units, or up to the first NUL. */
  predicate Readable(memory: seq<CodeUnit>) {
    |memory| >= CAP || 0 in memory
  }

  method AppendCodePoint(s: seq<Byte>, cp: CodePoint) returns (r: seq<Byte>)
    ensures r == s + BytesOf(cp)
  {
    if cp < 0x80 {
      r := s + [cp];
    } else if cp < 0x800 {
      r := s + [0xC0 + cp / 64];
      r := r + [0x80 + cp % 64];
    } else if cp < 0x10000 {
      r := s + [0xE0 + cp / 4096];
      r := r + [0x80 + cp / 64 % 64];
      r := r + [0x80 + cp % 64];
    } else {
      r := s + [0xF0 + cp / 262144];
      r := r + [0x80 + cp / 4096 % 64];
      r := r + [0x80 + cp / 64 % 64];
      r := r + [0x80 + cp % 64];
    }
  }

  lemma TextAt(memory: seq<CodeUnit>, i: nat)
    requires Readable(memory) && i <= |Text(memory, CAP)|
    ensures i < CAP ==> i < |memory|
    ensures i < |Text(memory, CAP)| <==> i < CAP && memory[i] != 0
  {
    if 0 in memory {
      var z :| 0 <= z < |memory| && memory[z] == 0;
      TextStops(memory, CAP, z);
    }
  }

  lemma {:induction false} TextStops(memory: seq<CodeUnit>, limit: nat, z: nat)
    requires z < |memory| && memory[z] == 0
    ensures |Text(memory, limit)| <= z
  {
    if z > 0 && limit > 0 {
      TextStops(memory[1..], limit - 1, z - 1);
    }
  }

  method U16ToUtf8(memory: Option<seq<CodeUnit>>) returns (out: seq<Byte>)
    requires memory.Some? ==> Readable(memory.value)
    ensures out == if memory.None? then [] else Utf8(CodePoints(Text(memory.value, CAP)))
  {
    out := [];
    if memory.None? {
      return;
    }
    var u := memory.value;
    ghost var text := Text(u, CAP);
    var i := 0;
    TextAt(u, 0);
    assert text[0..] == text;
    while i < CAP && u[i] != 0
      invariant i <= |text|
      invariant i < CAP ==> i < |u|
      invariant i < |text| <==> i < CAP && u[i] != 0
      invariant out + Utf8(CodePoints(text[i..])) == Utf8(CodePoints(text))
      decreases |text| - i
    {
      ghost var rest, before := text[i..], out;
      var cp: CodePoint := u[i];
      i := i + 1;
      TextAt(u, i);
      if High(u[i - 1]) && i < CAP && Low(u[i]) {
        cp := Joined(u[i - 1], u[i]);
        i := i + 1;
        TextAt(u, i);
        assert Paired(rest) && rest[2..] == text[i..];
      } else {
        assert !Paired(rest) && rest[1..] == text[i..];
      }
      out := AppendCodePoint(out, cp);
      OneMore(before, cp, CodePoints(text[i..]));
    }
    assert text[i..] == [];
    assert out + [] == out;
  }

  lemma OneMore(out: seq<Byte>, cp: CodePoint, rest: seq<CodePoint>)
    ensures out + BytesOf(cp) + Utf8(rest) == out + Utf8([cp] + rest)
  {
    assert ([cp] + rest)[1..] == rest;
    assert out + BytesOf(cp) + Utf8(rest) == out + (BytesOf(cp) + Utf8(rest));
  }

  /** Never past `maxLen`, and a NUL behind what was written. */
  method WriteImeText(buffer: array?<CodeUnit>, maxLen: nat, utf8: seq<Byte>) returns (n: nat)
    requires buffer != null ==> buffer.Length > maxLen
    modifies buffer
    ensures buffer == null ==> n == 0
    ensures buffer != null ==>
              && n <= maxLen
              && buffer[..n] == Utf16(Fitting(Decoded(utf8), maxLen))
              && buffer[n] == 0
              && buffer[n + 1..] == old(buffer[n + 1..])
  {
    n := 0;
    if buffer == null {
      return;
    }
    var i := 0;
    ghost var was := buffer[..];
    assert utf8[0..] == utf8;
    hide Total;
    while i < |utf8| && n < maxLen
      invariant i <= |utf8| && n <= maxLen
      invariant Total(buffer[..n], utf8[i..], maxLen - n) == Total([], utf8, maxLen)
      invariant forall j :: n <= j < buffer.Length ==> buffer[j] == was[j]
      decreases |utf8| - i
    {
      var more;
      i, n, more := WriteNext(buffer, maxLen, utf8, i, n);
      if !more {
        break;
      }
    }
    NothingMore(buffer[..n], utf8[i..]);
    assert buffer[..n] == Total([], utf8, maxLen);
    TotalFromNothing(utf8, maxLen);
    buffer[n] := 0;
    assert buffer[n + 1..] == was[n + 1..];
  }

  /** One turn of the writing loop: passes over a stray byte, writes a code point, or ends. */
  method WriteNext(buffer: array<CodeUnit>, maxLen: nat, utf8: seq<Byte>, at: nat, written: nat)
    returns (i: nat, n: nat, more: bool)
    requires at < |utf8| && written < maxLen < buffer.Length
    modifies buffer
    ensures i <= |utf8| && written <= n <= maxLen && (more ==> at < i)
    ensures var total := Total(old(buffer[..written]), utf8[at..], maxLen - written);
            if more then Total(buffer[..n], utf8[i..], maxLen - n) == total else buffer[..n] == total
    ensures forall j :: n <= j < buffer.Length ==> buffer[j] == old(buffer[j])
  {
    hide Total, LeadOf, UnitsOf, SequenceAt;
    ghost var rest := utf8[at..];
    var lead := LeadOf(utf8[at]);
    ReadingStep(buffer[..written], rest, maxLen - written);
    if lead.Stray? {
      assert utf8[at + 1..] == rest[1..];
      return at + 1, written, true;
    }
    if at + lead.length > |utf8| {
      return at, written, false;
    }
    var cp := SequenceFrom(utf8, at, lead);
    i := at + lead.length;
    assert utf8[i..] == rest[lead.length..];
    n, more := PutCodePoint(buffer, written, cp, maxLen);
  }

  /** What has been written, and what will be from the bytes that are left. */
  function Total(done: seq<CodeUnit>, rest: seq<Byte>, room: nat): seq<CodeUnit> {
    done + Utf16(Fitting(Decoded(rest), room))
  }

  lemma TotalFromNothing(utf8: seq<Byte>, room: nat)
    ensures Total([], utf8, room) == Utf16(Fitting(Decoded(utf8), room))
  {
  }

  lemma NothingMore(done: seq<CodeUnit>, rest: seq<Byte>)
    ensures Total(done, rest, 0) == done
    ensures forall room :: Total(done, [], room) == done
  {
  }

  lemma ReadingStep(done: seq<CodeUnit>, rest: seq<Byte>, room: nat)
    requires rest != []
    ensures LeadOf(rest[0]).Stray? ==> Total(done, rest[1..], room) == Total(done, rest, room)
    ensures LeadOf(rest[0]).Opens? && LeadOf(rest[0]).length > |rest| ==> Total(done, rest, room) == done
    ensures LeadOf(rest[0]).Opens? && LeadOf(rest[0]).length <= |rest| ==>
              var units := UnitsOf(SequenceAt(rest));
              if |units| > room then Total(done, rest, room) == done
              else Total(done, rest, room) == Total(done + units, rest[LeadOf(rest[0]).length..], room - |units|)
  {
    var l := LeadOf(rest[0]);
    if l.Opens? && l.length <= |rest| {
      FitsOrEnds(done, SequenceAt(rest), Decoded(rest[l.length..]), room);
    }
  }

  lemma FitsOrEnds(done: seq<CodeUnit>, cp: CodePoint, later: seq<CodePoint>, room: nat)
    ensures |UnitsOf(cp)| <= room ==>
              done + Utf16(Fitting([cp] + later, room)) == done + UnitsOf(cp) + Utf16(Fitting(later, room - |UnitsOf(cp)|))
    ensures |UnitsOf(cp)| > room ==> done + Utf16(Fitting([cp] + later, room)) == done
  {
    assert ([cp] + later)[1..] == later;
    if |UnitsOf(cp)| <= room {
      var fit := Fitting(later, room - |UnitsOf(cp)|);
      assert ([cp] + fit)[1..] == fit;
    }
  }

  /** One unit, or a pair when both halves fit. */
  method PutCodePoint(buffer: array<CodeUnit>, at: nat, cp: CodePoint, maxLen: nat) returns (n: nat, fits: bool)
    requires at < maxLen < buffer.Length
    modifies buffer
    ensures fits == (at + |UnitsOf(cp)| <= maxLen) && n == at + (if fits then |UnitsOf(cp)| else 0)
    ensures buffer[..n] == old(buffer[..at]) + (if fits then UnitsOf(cp) else [])
    ensures forall j :: n <= j < buffer.Length ==> buffer[j] == old(buffer[j])
  {
    n := at;
    if cp < 0x10000 {
      buffer[n] := cp;
      n := n + 1;
    } else {
      if n + 2 > maxLen {
        return n, false;
      }
      var rem := cp - 0x10000;
      buffer[n] := 0xD800 + rem / 0x400;
      n := n + 1;
      buffer[n] := 0xDC00 + rem % 0x400;
      n := n + 1;
    }
    fits := true;
  }

  method SequenceFrom(utf8: seq<Byte>, i: nat, lead: Lead) returns (cp: CodePoint)
    requires i < |utf8| && lead == LeadOf(utf8[i]) && lead.Opens? && i + lead.length <= |utf8|
    ensures cp == SequenceAt(utf8[i..])
  {
    var acc: nat := lead.bits;
    var k := 1;
    ghost var rest := utf8[i..];
    while k < lead.length
      invariant 1 <= k <= lead.length
      invariant acc == Accumulated(lead.bits, rest[1..k])
    {
      assert rest[1..k + 1][..k - 1] == rest[1..k];
      acc := acc * 64 + utf8[i + k] % 64;
      k := k + 1;
    }
    AccumulatedFits(lead.bits, rest[1..lead.length]);
    cp := acc;
  }

  // --- the codecs are inverse ----------------------------------------------------------------------

  lemma JoinedSplits(high: CodeUnit, low: CodeUnit)
    requires High(high) && Low(low)
    ensures UnitsOf(Joined(high, low)) == [high, low] && Joined(high, low) < 0x11_0000
  {
  }

  lemma OnePointMore(cp: CodePoint, rest: seq<CodePoint>)
    ensures Utf16([cp] + rest) == UnitsOf(cp) + Utf16(rest)
  {
    assert ([cp] + rest)[1..] == rest;
  }

  lemma FirstPoint(units: seq<CodeUnit>) returns (cp: CodePoint, n: nat)
    requires units != []
    ensures 1 <= n <= |units| && cp < 0x11_0000
    ensures CodePoints(units) == [cp] + CodePoints(units[n..]) && UnitsOf(cp) == units[..n]
  {
    if Paired(units) {
      JoinedSplits(units[0], units[1]);
      cp, n := Joined(units[0], units[1]), 2;
      assert units[..2] == [units[0], units[1]];
    } else {
      cp, n := units[0], 1;
    }
  }

  lemma {:induction false} PairingLosesNothing(units: seq<CodeUnit>)
    ensures Utf16(CodePoints(units)) == units && Encodable(CodePoints(units))
  {
    if units != [] {
      var cp, n := FirstPoint(units);
      hide UnitsOf, Joined, Paired;
      var rest := units[n..];
      PairingLosesNothing(rest);
      OnePointMore(cp, CodePoints(rest));
      assert units == units[..n] + rest;
    }
  }

  lemma DecodedOne(cp: CodePoint, rest: seq<Byte>)
    requires cp < 0x11_0000
    ensures Decoded(BytesOf(cp) + rest) == [cp] + Decoded(rest)
  {
    var b := BytesOf(cp);
    var all := b + rest;
    assert all[|b|..] == rest && all[1..|b|] == b[1..];
    LeadOfFirst(cp);
    AccumulatedFits(LeadOf(b[0]).bits, b[1..]);
    ShiftedBack(cp);
  }

  lemma LeadOfFirst(cp: CodePoint)
    requires cp < 0x11_0000
    ensures var b := BytesOf(cp);
            LeadOf(b[0]) == Opens(if |b| == 1 then cp else if |b| == 2 then cp / 64 else if |b| == 3 then cp / 4096 else cp / 262144, |b|)
  {
  }

  lemma ShiftedBack(cp: CodePoint)
    ensures cp / 64 * 64 + cp % 64 == cp
    ensures (cp / 4096 * 64 + cp / 64 % 64) * 64 + cp % 64 == cp
    ensures ((cp / 262144 * 64 + cp / 4096 % 64) * 64 + cp / 64 % 64) * 64 + cp % 64 == cp
    ensures cp % 64 == (0x80 + cp % 64) % 64 && cp / 64 % 64 == (0x80 + cp / 64 % 64) % 64
    ensures cp / 4096 % 64 == (0x80 + cp / 4096 % 64) % 64
  {
  }

  lemma {:induction false} DecodingInverts(cps: seq<CodePoint>)
    requires Encodable(cps)
    ensures Decoded(Utf8(cps)) == cps
  {
    if cps != [] {
      DecodingInverts(cps[1..]);
      DecodedOne(cps[0], Utf8(cps[1..]));
    }
  }

  lemma {:induction false} LongestFit(cps: seq<CodePoint>, room: nat) returns (k: nat)
    ensures k <= |cps| && Fitting(cps, room) == cps[..k]
    ensures |Utf16(cps[..k])| <= room
    ensures k < |cps| ==> |Utf16(cps[..k + 1])| > room
    decreases |cps|
  {
    hide UnitsOf;
    if cps == [] || |UnitsOf(cps[0])| > room {
      k := 0;
      if cps != [] {
        PrefixUnits(cps, 0);
      }
    } else {
      var j := LongestFit(cps[1..], room - |UnitsOf(cps[0])|);
      k := j + 1;
      PrefixUnits(cps, j);
      if k < |cps| {
        PrefixUnits(cps, k);
      }
    }
  }

  lemma PrefixUnits(cps: seq<CodePoint>, j: nat)
    requires j < |cps|
    ensures cps[..j + 1] == [cps[0]] + cps[1..][..j]
    ensures |Utf16(cps[..j + 1])| == |UnitsOf(cps[0])| + |Utf16(cps[1..][..j])|
  {
    var p := cps[..j + 1];
    assert p[0] == cps[0] && p[1..] == cps[1..][..j];
  }

  lemma {:induction false} LongerTakesMore(cps: seq<CodePoint>, k: nat)
    requires k <= |cps|
    ensures |Utf16(cps[..k])| <= |Utf16(cps)|
    decreases |cps|
  {
    if k > 0 {
      LongerTakesMore(cps[1..], k - 1);
      assert cps[..k][1..] == cps[1..][..k - 1];
    }
  }

  lemma {:induction false} TextStopsAtNul(text: seq<CodeUnit>, behind: seq<CodeUnit>, limit: nat)
    requires forall i :: 0 <= i < |text| ==> text[i] != 0
    requires |text| <= limit && (behind == [] || behind[0] == 0 || |text| == limit)
    ensures Text(text + behind, limit) == text
  {
    if text != [] {
      TextStopsAtNul(text[1..], behind, limit - 1);
      assert (text + behind)[1..] == text[1..] + behind;
    } else {
      assert text + behind == behind;
    }
  }

  /** Whatever follows the text in memory, unpaired surrogates included: read as UTF-8 and written back
      with enough room, the text is what it was. */
  lemma RoundTrip(text: seq<CodeUnit>, behind: seq<CodeUnit>, maxLen: nat)
    requires forall i :: 0 <= i < |text| ==> text[i] != 0
    requires |text| <= 4096 && (behind == [] || behind[0] == 0 || |text| == 4096)
    requires maxLen >= |text|
    ensures Utf16(Fitting(Decoded(Utf8(CodePoints(Text(text + behind, CAP)))), maxLen)) == text
  {
    TextStopsAtNul(text, behind, CAP);
    PairingLosesNothing(text);
    var cps := CodePoints(text);
    DecodingInverts(cps);
    var k := LongestFit(cps, maxLen);
    if k < |cps| {
      LongerTakesMore(cps, k + 1);
      assert false;
    }
    assert cps[..k] == cps;
  }

  /** What is written of well-formed UTF-8 is the UTF-16 of its longest prefix, by code points, that
      fits; reading it back gives that prefix, so no pair was split. */
  lemma WritesLongestPrefix(cps: seq<CodePoint>, maxLen: nat) returns (k: nat)
    requires Scalars(cps)
    ensures k <= |cps|
    ensures var written := Utf16(Fitting(Decoded(Utf8(cps)), maxLen));
            written == Utf16(cps[..k]) && |written| <= maxLen && CodePoints(written) == cps[..k]
    ensures forall j :: k < j <= |cps| ==> |Utf16(cps[..j])| > maxLen
  {
    DecodingInverts(cps);
    k := LongestFit(cps, maxLen);
    ScalarsReadBack(cps[..k]);
    forall j | k < j <= |cps| ensures |Utf16(cps[..j])| > maxLen {
      LongerTakesMore(cps[..j], k + 1);
      assert cps[..j][..k + 1] == cps[..k + 1];
    }
  }

  lemma {:induction false} ScalarsReadBack(cps: seq<CodePoint>)
    requires Scalars(cps)
    ensures CodePoints(Utf16(cps)) == cps
  {
    if cps != [] {
      ScalarsReadBack(cps[1..]);
      var u, rest := UnitsOf(cps[0]), Utf16(cps[1..]);
      assert (u + rest)[|u|..] == rest;
      if cps[0] < 0x10000 {
        assert !Paired(u + rest);
      } else {
        assert Paired(u + rest) && Joined(u[0], u[1]) == cps[0];
      }
    }
  }
}

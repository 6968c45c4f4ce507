/** The two chunks the parser looks into, written out field by field: WAVEFORMATEXTENSIBLE with the ATRAC9
    extension, and the sampler chunk of chapter 3 of "Multimedia Programming Interface and Data
    Specifications 1.0". */
module RiffLayout {
  import opened Wrappers
  import opened RiffAt9

  function Half(n: nat): (b: seq<Byte>)
    requires n < 0x1_0000
    ensures |b| == 2
  {
    [n % 0x100, n / 0x100]
  }

  lemma WordReadsAt(s: seq<Byte>, before: seq<Byte>, n: nat)
    requires n < WORD && before + Word(n) <= s
    ensures Le32(s, |before|) == n
  {
    var p := before + Word(n);
    assert s[..|p|] == p && p[|before|..|before| + 4] == Word(n);
    assert s[|before|..|before| + 4] == p[|before|..|before| + 4];
    Le32At(s, |before|, n);
  }

  lemma HalfReadsAt(s: seq<Byte>, before: seq<Byte>, n: nat)
    requires n < 0x1_0000 && before + Half(n) <= s
    ensures Le16(s, |before|) == n
  {
    var p := before + Half(n);
    assert s[..|p|] == p;
    assert s[|before|] == p[|before|] == n % 0x100 && s[|before| + 1] == p[|before| + 1] == n / 0x100;
  }

  lemma BytesReadAt(s: seq<Byte>, before: seq<Byte>, field: seq<Byte>)
    requires before + field <= s
    ensures s[|before|..|before| + |field|] == field
  {
    var p := before + field;
    assert s[..|p|] == p;
    assert p[|before|..] == field;
  }

  lemma Longer(p: seq<Byte>, q: seq<Byte>, s: seq<Byte>)
    requires p <= q && q <= s
    ensures p <= s
  {
  }

  // --- tags ----------------------------------------------------------------------------------------

  function Ascii(s: string): seq<Byte>
    requires forall i :: 0 <= i < |s| ==> s[i] as int < 256
  {
    seq(|s|, i requires 0 <= i < |s| => s[i] as int)
  }

  lemma TagsAreSpelled()
    ensures RiffTag() == Ascii("RIFF") && WaveTag() == Ascii("WAVE")
    ensures FmtTag() == Ascii("fmt ") && DataTag() == Ascii("data") && SmplTag() == Ascii("smpl")
  {
  }

  // --- fmt -----------------------------------------------------------------------------------------

  datatype Format = Format(
    tag: nat, channels: nat, rate: nat, bytesPerSecond: nat, blockAlign: nat, bits: nat, extension: nat,
    samplesPerBlock: nat, channelMask: nat, guid: seq<Byte>, version: nat, config: seq<Byte>, reserved: nat)

  predicate InRange(f: Format) {
    && f.tag < 0x1_0000 && f.channels < 0x1_0000 && f.rate < WORD && f.bytesPerSecond < WORD
    && f.blockAlign < 0x1_0000 && f.bits < 0x1_0000 && f.extension < 0x1_0000
    && f.samplesPerBlock < 0x1_0000 && f.channelMask < WORD && |f.guid| == 16
    && f.version < WORD && |f.config| == 4 && f.reserved < WORD
  }

  function Basic(f: Format): (b: seq<Byte>)
    requires InRange(f)
    ensures |b| == 18
  {
    Half(f.tag) + Half(f.channels) + Word(f.rate) + Word(f.bytesPerSecond) + Half(f.blockAlign) + Half(f.bits) + Half(f.extension)
  }

  function Extension(f: Format): (b: seq<Byte>)
    requires InRange(f)
    ensures |b| == 34
  {
    Half(f.samplesPerBlock) + Word(f.channelMask) + f.guid + Word(f.version) + f.config + Word(f.reserved)
  }

  /** `more` is whatever a longer chunk holds behind. */
  function FormatBytes(f: Format, more: seq<Byte>): seq<Byte>
    requires InRange(f)
  {
    Basic(f) + Extension(f) + more
  }

  /** {47E142D2-36BA-4D8D-88FC-61654F8C836C}, its first three groups as little-endian numbers. */
  function Atrac9(): seq<Byte> {
    Word(0x47E142D2) + Half(0x36BA) + Half(0x4D8D) + [0x88, 0xFC, 0x61, 0x65, 0x4F, 0x8C, 0x83, 0x6C]
  }

  lemma GuidIsAtrac9()
    ensures Atrac9Guid() == Atrac9()
  {
  }

  lemma BasicReads(f: Format, s: seq<Byte>)
    requires InRange(f) && Basic(f) <= s
    ensures Le16(s, 0) == f.tag && Le16(s, 2) == f.channels && Le32(s, 4) == f.rate
    ensures Le16(s, 12) == f.blockAlign && Le16(s, 16) == f.extension
  {
    var p1 := Half(f.tag);
    var p2 := p1 + Half(f.channels);
    var p3 := p2 + Word(f.rate);
    var p4 := p3 + Word(f.bytesPerSecond);
    var p5 := p4 + Half(f.blockAlign);
    var p6 := p5 + Half(f.bits);
    var p7 := p6 + Half(f.extension);
    hide Half, Word, Le16, Le32;
    assert p7 == Basic(f);
    Longer(p6, p7, s);
    Longer(p5, p6, s);
    Longer(p4, p5, s);
    Longer(p3, p4, s);
    Longer(p2, p3, s);
    Longer(p1, p2, s);
    assert [] + Half(f.tag) == p1;
    HalfReadsAt(s, [], f.tag);
    HalfReadsAt(s, p1, f.channels);
    WordReadsAt(s, p2, f.rate);
    HalfReadsAt(s, p4, f.blockAlign);
    HalfReadsAt(s, p6, f.extension);
  }

  lemma ExtensionReads(f: Format, basic: seq<Byte>, s: seq<Byte>)
    requires InRange(f) && |basic| == 18 && basic + Extension(f) <= s
    ensures Le16(s, 18) == f.samplesPerBlock && s[24..40] == f.guid && s[44..48] == f.config
  {
    var p1 := Half(f.samplesPerBlock);
    var p2 := p1 + Word(f.channelMask);
    var p3 := p2 + f.guid;
    var p4 := p3 + Word(f.version);
    var p5 := p4 + f.config;
    hide Half, Word, Le16, Le32;
    assert Extension(f) == p5 + Word(f.reserved);
    FieldsBehind(basic, p5, Extension(f), s);
    FieldsBehind(basic, p3, p5, s);
    FieldsBehind(basic, p1, p3, s);
    HalfReadsAt(s, basic, f.samplesPerBlock);
    assert basic + p3 == basic + p2 + f.guid;
    BytesReadAt(s, basic + p2, f.guid);
    assert basic + p5 == basic + p4 + f.config;
    BytesReadAt(s, basic + p4, f.config);
  }

  lemma FieldsBehind(basic: seq<Byte>, p: seq<Byte>, q: seq<Byte>, s: seq<Byte>)
    requires p <= q && basic + q <= s
    ensures basic + p <= s
  {
    assert q[..|p|] == p;
    assert (basic + q)[..|basic| + |p|] == basic + p;
  }

  /** A format chunk is taken exactly when it is extensible, its extension is large enough and its GUID is
      ATRAC9's; and then each parameter is the field of that name. */
  lemma FormatIsRead(f: Format, more: seq<Byte>)
    requires InRange(f)
    ensures var r := FmtOf(FormatBytes(f, more));
            && (r.Ok? <==> f.tag == 0xFFFE && f.extension >= 34 && f.guid == Atrac9())
            && (r.Ok? ==> r.value == Fmt(f.channels, f.rate, f.blockAlign, f.samplesPerBlock, f.config))
  {
    var s := FormatBytes(f, more);
    GuidIsAtrac9();
    var head := Basic(f) + Extension(f);
    assert head <= s;
    assert Basic(f) <= s;
    BasicReads(f, s);
    ExtensionReads(f, Basic(f), s);
    hide Basic, Extension, Le16, Le32, Atrac9Guid, Atrac9;
  }

  /** Anything shorter than basic format and extension is refused. */
  lemma ShortFormatRefused(content: seq<Byte>)
    requires |content| < 52
    ensures FmtOf(content).Refused?
  {
    hide Atrac9Guid;
  }

  // --- smpl ----------------------------------------------------------------------------------------

  datatype Sampler = Sampler(
    manufacturer: nat, product: nat, samplePeriod: nat, unityNote: nat, pitchFraction: nat,
    smpteFormat: nat, smpteOffset: nat, loops: nat, samplerData: nat)

  datatype SampleLoop = SampleLoop(id: nat, kind: nat, start: nat, end: nat, fraction: nat, playCount: nat)

  predicate WordSized(ns: seq<nat>) {
    forall i :: 0 <= i < |ns| ==> ns[i] < WORD
  }

  function Words(ns: seq<nat>): (b: seq<Byte>)
    requires WordSized(ns)
    ensures |b| == 4 * |ns|
  {
    if ns == [] then [] else Words(ns[..|ns| - 1]) + Word(ns[|ns| - 1])
  }

  lemma {:induction false} WordsRead(ns: seq<nat>, s: seq<Byte>, i: nat)
    requires WordSized(ns) && Words(ns) <= s && i < |ns|
    ensures Le32(s, 4 * i) == ns[i]
    decreases |ns|
  {
    var init := ns[..|ns| - 1];
    if i == |ns| - 1 {
      WordReadsAt(s, Words(init), ns[i]);
    } else {
      Longer(Words(init), Words(ns), s);
      WordsRead(init, s, i);
    }
  }

  function SamplerWords(x: Sampler, l: SampleLoop): seq<nat> {
    [x.manufacturer, x.product, x.samplePeriod, x.unityNote, x.pitchFraction, x.smpteFormat, x.smpteOffset, x.loops, x.samplerData]
    + [l.id, l.kind, l.start, l.end, l.fraction, l.playCount]
  }

  /** A sampler chunk's loop is its first one, and only if it runs forward. */
  lemma LoopIsRead(x: Sampler, l: SampleLoop, more: seq<Byte>)
    requires WordSized(SamplerWords(x, l))
    ensures LoopOf(Words(SamplerWords(x, l)) + more) == if x.loops >= 1 && l.kind == 0 then Some(Loop(l.start, l.end)) else None
  {
    var ns := SamplerWords(x, l);
    var s := Words(ns) + more;
    hide Le32, Words;
    assert Words(ns) <= s;
    WordsRead(ns, s, 7);
    WordsRead(ns, s, 10);
    WordsRead(ns, s, 11);
    WordsRead(ns, s, 12);
  }

  /** A sampler chunk too short for a loop gives none. */
  lemma ShortSamplerHasNoLoop(content: seq<Byte>)
    requires |content| < 60
    ensures LoopOf(content) == None
  {
  }

  // --- the clip ------------------------------------------------------------------------------------

  /** Only a file that says it is RIFF and WAVE is read at all. */
  lemma OnlyWaveIsRead(bytes: seq<Byte>)
    ensures Parse(bytes).Ok? ==> |bytes| >= 12 && bytes[..4] == Ascii("RIFF") && bytes[8..12] == Ascii("WAVE")
  {
    TagsAreSpelled();
    if |bytes| >= 12 {
      assert bytes[0..4] == bytes[..4];
    }
  }

  /** A clip is as long as its superframes: so many samples for every block of its data. */
  lemma ClipLastsItsBlocks(clip: Clip)
    requires WholeSuperframes(clip)
    ensures TotalFrames(clip) * clip.fmt.blockAlign == clip.dataSize * clip.fmt.samplesPerBlock
  {
    var n := Superframes(clip.dataSize, clip.fmt.blockAlign);
    Regrouped(n, clip.fmt.samplesPerBlock, clip.fmt.blockAlign);
  }

  lemma Regrouped(a: nat, b: nat, c: nat)
    ensures (a * b) * c == (a * c) * b
  {
  }

  lemma ScalesOrder(a: nat, b: nat, c: nat)
    requires c > 0
    ensures a < b <==> a * c < b * c
  {
    if a < b {
      assert (b - a) * c > 0;
    } else {
      assert (a - b) * c >= 0;
    }
  }

  /** A loop is kept exactly when it runs forward and ends inside that length; otherwise it is dropped. */
  lemma LoopIsKept(l: Loop, clip: Clip)
    requires WholeSuperframes(clip)
    ensures Kept(Some(l), clip) ==
            if l.start < l.end && l.end * clip.fmt.blockAlign < clip.dataSize * clip.fmt.samplesPerBlock then Some(l) else None
  {
    ClipLastsItsBlocks(clip);
    ScalesOrder(l.end, TotalFrames(clip), clip.fmt.blockAlign);
  }
}

/** The title music's container: a RIFF chunk walk that finds the codec parameters, the compressed data
    and the loop, and the cursor that plays the clip. */
module RiffAt9 {
  import opened Wrappers

  type Byte = x: int | 0 <= x < 256

  const WORD: nat := 0x1_0000_0000

  datatype Fmt = Fmt(channels: nat, sampleRate: nat, blockAlign: nat, samplesPerBlock: nat, config: seq<Byte>)

  datatype Data = Data(offset: nat, size: nat)

  /** `end` is the last frame played. */
  datatype Loop = Loop(start: nat, end: nat)

  datatype Found = Found(fmt: Option<Fmt>, data: Option<Data>, loop: Option<Loop>)

  datatype Clip = Clip(fmt: Fmt, dataOffset: nat, dataSize: nat, loop: Option<Loop>)

  datatype Reason =
    | TooShort | NotRiff | NotWave
    | FmtTooSmall | NotExtensible | ExtensionTooSmall | NotAtrac9
    | NoFmt | NoData | NoChannels | NoRate | NoBlockAlign | NoSuperframeLength | NoSuperframe

  datatype Result<T> = Ok(value: T) | Refused(reason: Reason)

  // --- little-endian numbers and tags --------------------------------------------------------------

  function Le16(b: seq<Byte>, off: nat): (n: nat)
    ensures n < 0x10000
  {
    if off + 2 > |b| then 0 else b[off] as int + 0x100 * (b[off + 1] as int)
  }

  function Le32(b: seq<Byte>, off: nat): (n: nat)
    ensures n < WORD
  {
    if off + 4 > |b| then 0
    else b[off] as int + 0x100 * (b[off + 1] as int) + 0x1_0000 * (b[off + 2] as int) + 0x100_0000 * (b[off + 3] as int)
  }

  function RiffTag(): seq<Byte> { [0x52, 0x49, 0x46, 0x46] }

  function WaveTag(): seq<Byte> { [0x57, 0x41, 0x56, 0x45] }

  function FmtTag(): seq<Byte> { [0x66, 0x6D, 0x74, 0x20] }

  function DataTag(): seq<Byte> { [0x64, 0x61, 0x74, 0x61] }

  function SmplTag(): seq<Byte> { [0x73, 0x6D, 0x70, 0x6C] }

  function Atrac9Guid(): seq<Byte> {
    [0xD2, 0x42, 0xE1, 0x47, 0xBA, 0x36, 0x8D, 0x4D, 0x88, 0xFC, 0x61, 0x65, 0x4F, 0x8C, 0x83, 0x6C]
  }

  const EXTENSIBLE: nat := 0xFFFE
  const EXTENSION: nat := 34       // bytes of the fmt extension
  const CONFIG: nat := 26          // within the extension

  predicate TagAt(b: seq<Byte>, off: nat, tag: seq<Byte>) {
    off + 4 <= |b| && b[off..off + 4] == tag
  }

  // --- one chunk -----------------------------------------------------------------------------------

  function FmtOf(content: seq<Byte>): Result<Fmt> {
    if |content| < 18 then Refused(FmtTooSmall)
    else if Le16(content, 0) != EXTENSIBLE then Refused(NotExtensible)
    else if Le16(content, 16) < EXTENSION || |content| < 18 + EXTENSION then Refused(ExtensionTooSmall)
    else if content[24..40] != Atrac9Guid() then Refused(NotAtrac9)
    else Ok(Fmt(Le16(content, 2), Le32(content, 4), Le16(content, 12), Le16(content, 18), content[18 + CONFIG..22 + CONFIG]))
  }

  /** The first loop of a sampler chunk, if there is one and it runs forward. */
  function LoopOf(content: seq<Byte>): Option<Loop> {
    if |content| >= 60 && Le32(content, 28) >= 1 && Le32(content, 40) == 0
    then Some(Loop(Le32(content, 44), Le32(content, 48)))
    else None
  }

  function Take(found: Found, tag: seq<Byte>, content: seq<Byte>, at: nat): Result<Found> {
    if tag == FmtTag() then
      var fmt := FmtOf(content);
      if fmt.Ok? then Ok(found.(fmt := Some(fmt.value))) else Refused(fmt.reason)
    else if tag == DataTag() then Ok(found.(data := Some(Data(at, |content|))))
    else if tag == SmplTag() && LoopOf(content).Some? then Ok(found.(loop := LoopOf(content)))
    else Ok(found)
  }

  // --- the walk ------------------------------------------------------------------------------------

  function Padded(size: nat): nat {
    size + size % 2
  }

  function Walk(bytes: seq<Byte>, off: nat, end: nat, found: Found): Result<Found>
    requires end <= |bytes|
    decreases |bytes| + 9 - off
  {
    if off + 8 > end || off + 8 + Le32(bytes, off + 4) > end then Ok(found)
    else
      var size := Le32(bytes, off + 4);
      var next := Take(found, bytes[off..off + 4], bytes[off + 8..off + 8 + size], off + 8);
      if next.Ok? then Walk(bytes, off + 8 + Padded(size), end, next.value) else next
  }

  function Superframes(size: nat, blockAlign: nat): nat
    requires blockAlign > 0
  {
    size / blockAlign
  }

  function TotalFrames(clip: Clip): nat {
    if clip.fmt.blockAlign == 0 then 0 else Superframes(clip.dataSize, clip.fmt.blockAlign) * clip.fmt.samplesPerBlock
  }

  function Finish(found: Found): Result<Clip> {
    if found.fmt.None? then Refused(NoFmt)
    else if found.data.None? then Refused(NoData)
    else if found.fmt.value.channels == 0 then Refused(NoChannels)
    else if found.fmt.value.sampleRate == 0 then Refused(NoRate)
    else if found.fmt.value.blockAlign == 0 then Refused(NoBlockAlign)
    else if found.fmt.value.samplesPerBlock == 0 then Refused(NoSuperframeLength)
    else
      var size := found.data.value.size - found.data.value.size % found.fmt.value.blockAlign;
      if size == 0 then Refused(NoSuperframe)
      else
        var clip := Clip(found.fmt.value, found.data.value.offset, size, None);
        var keep := found.loop.Some? && found.loop.value.start < found.loop.value.end < TotalFrames(clip);
        Ok(if keep then clip.(loop := found.loop) else clip)
  }

  /** Bounded by the declared size as well as by the file. */
  function WalkEnd(bytes: seq<Byte>): (end: nat)
    ensures end <= |bytes|
  {
    if Le32(bytes, 4) + 8 < |bytes| then Le32(bytes, 4) + 8 else |bytes|
  }

  const NOTHING: Found := Found(None, None, None)

  function Parse(bytes: seq<Byte>): Result<Clip> {
    if |bytes| < 12 then Refused(TooShort)
    else if !TagAt(bytes, 0, RiffTag()) then Refused(NotRiff)
    else if !TagAt(bytes, 8, WaveTag()) then Refused(NotWave)
    else
      var found := Walk(bytes, 12, WalkEnd(bytes), NOTHING);
      if found.Ok? then Finish(found.value) else Refused(found.reason)
  }

  lemma SubSlice(bytes: seq<Byte>, body: nat, size: nat, i: nat, j: nat)
    requires i <= j <= size && body + size <= |bytes|
    ensures bytes[body..body + size][i..j] == bytes[body + i..body + j]
  {
    var inner, outer := bytes[body..body + size][i..j], bytes[body + i..body + j];
    assert |inner| == |outer|;
    assert forall k :: 0 <= k < |inner| ==> inner[k] == outer[k];
  }

  method ReadFmt(bytes: seq<Byte>, body: nat, size: nat) returns (r: Result<Fmt>)
    requires body + size <= |bytes|
    ensures r == FmtOf(bytes[body..body + size])
  {
    ghost var content := bytes[body..body + size];
    hide Atrac9Guid;
    if size < 18 {
      return Refused(FmtTooSmall);
    }
    if Le16(bytes, body) != EXTENSIBLE {
      return Refused(NotExtensible);
    }
    var channels := Le16(bytes, body + 2);
    var sampleRate := Le32(bytes, body + 4);
    var blockAlign := Le16(bytes, body + 12);
    if Le16(bytes, body + 16) < EXTENSION || size < 18 + EXTENSION {
      return Refused(ExtensionTooSmall);
    }
    var ext := body + 18;
    SubSlice(bytes, body, size, 24, 40);
    SubSlice(bytes, body, size, 18 + CONFIG, 22 + CONFIG);
    if bytes[ext + 6..ext + 22] != Atrac9Guid() {
      return Refused(NotAtrac9);
    }
    var config := bytes[ext + CONFIG..ext + CONFIG + 4];
    return Ok(Fmt(channels, sampleRate, blockAlign, Le16(bytes, ext), config));
  }

  method ReadLoop(bytes: seq<Byte>, body: nat, size: nat) returns (loop: Option<Loop>)
    requires body + size <= |bytes|
    ensures loop == LoopOf(bytes[body..body + size])
  {
    loop := None;
    if size >= 36 {
      var loops := Le32(bytes, body + 28);
      if loops >= 1 && size >= 36 + 24 {
        var l := body + 36;
        if Le32(bytes, l + 4) == 0 {
          loop := Some(Loop(Le32(bytes, l + 8), Le32(bytes, l + 12)));
        }
      }
    }
  }

  method ReadChunk(bytes: seq<Byte>, off: nat, size: nat, found: Found) returns (r: Result<Found>)
    requires off + 8 + size <= |bytes|
    ensures r == Take(found, bytes[off..off + 4], bytes[off + 8..off + 8 + size], off + 8)
  {
    hide FmtOf, LoopOf, FmtTag, DataTag, SmplTag;
    var body := off + 8;
    r := Ok(found);
    if TagAt(bytes, off, FmtTag()) {
      var fmt := ReadFmt(bytes, body, size);
      r := if fmt.Ok? then Ok(found.(fmt := Some(fmt.value))) else Refused(fmt.reason);
    } else if TagAt(bytes, off, DataTag()) {
      r := Ok(found.(data := Some(Data(body, size))));
    } else if TagAt(bytes, off, SmplTag()) {
      var loop := ReadLoop(bytes, body, size);
      if loop.Some? {
        r := Ok(found.(loop := loop));
      }
    }
  }

  method WalkChunks(bytes: seq<Byte>, end: nat) returns (r: Result<Found>)
    requires end <= |bytes|
    ensures r == Walk(bytes, 12, end, NOTHING)
  {
    hide Take;
    var found := NOTHING;
    var off := 12;
    while off + 8 <= end
      invariant Walk(bytes, off, end, found) == Walk(bytes, 12, end, NOTHING)
      decreases end - off
    {
      var size := Le32(bytes, off + 4);
      if off + 8 + size > end {
        break;
      }
      var next := ReadChunk(bytes, off, size, found);
      if next.Refused? {
        return next;
      }
      found := next.value;
      off := off + 8 + size + size % 2;
    }
    r := Ok(found);
  }

  method ParseAt9Riff(bytes: seq<Byte>) returns (r: Result<Clip>)
    ensures r == Parse(bytes)
  {
    hide RiffTag, WaveTag, Walk;
    if |bytes| < 12 {
      return Refused(TooShort);
    }
    if !TagAt(bytes, 0, RiffTag()) {
      return Refused(NotRiff);
    }
    if !TagAt(bytes, 8, WaveTag()) {
      return Refused(NotWave);
    }
    var declared := Le32(bytes, 4) + 8;
    var end := if declared < |bytes| then declared else |bytes|;
    var found := WalkChunks(bytes, end);
    if found.Refused? {
      return Refused(found.reason);
    }
    r := Finish(found.value);
  }

  // --- every accepted file -------------------------------------------------------------------------

  predicate DataInside(found: Found, end: nat) {
    found.data.Some? ==> found.data.value.offset + found.data.value.size <= end
  }

  lemma {:induction false} WalkStaysInside(bytes: seq<Byte>, off: nat, end: nat, found: Found)
    requires end <= |bytes| && DataInside(found, end)
    ensures var r := Walk(bytes, off, end, found); r.Ok? ==> DataInside(r.value, end)
    decreases |bytes| + 9 - off
  {
    hide FmtOf, LoopOf, FmtTag, DataTag, SmplTag;
    if off + 8 <= end && off + 8 + Le32(bytes, off + 4) <= end {
      var size := Le32(bytes, off + 4);
      var next := Take(found, bytes[off..off + 4], bytes[off + 8..off + 8 + size], off + 8);
      if next.Ok? {
        WalkStaysInside(bytes, off + 8 + Padded(size), end, next.value);
      }
    }
  }

  predicate WholeSuperframes(clip: Clip) {
    && clip.fmt.blockAlign > 0
    && clip.dataSize == Superframes(clip.dataSize, clip.fmt.blockAlign) * clip.fmt.blockAlign
    && Superframes(clip.dataSize, clip.fmt.blockAlign) > 0
  }

  lemma RoundsDown(n: nat, m: nat)
    requires m > 0
    ensures var k := n - n % m; k == k / m * m && 0 <= n - k < m && (k > 0 <==> n >= m)
  {
    var q := n / m;
    assert n - n % m == q * m;
    DividesExactly(q, m);
    if n >= m {
      assert q >= 1;
    }
  }

  lemma DividesExactly(q: nat, m: nat)
    requires m > 0
    ensures q * m / m == q
  {
    SameQuotient(q * m / m, q * m % m, q, 0, m);
  }

  lemma SameQuotient(q1: int, r1: nat, q2: int, r2: nat, m: nat)
    requires r1 < m && r2 < m && q1 * m + r1 == q2 * m + r2
    ensures q1 == q2 && r1 == r2
  {
    if q1 < q2 {
      Apart(q1, q2, m);
      assert false;
    } else if q2 < q1 {
      Apart(q2, q1, m);
      assert false;
    }
  }

  lemma Distributes(a: int, b: int, m: nat)
    ensures (a + b) * m == a * m + b * m
  {
  }

  lemma NotNegative(k: nat, m: nat)
    ensures k * m >= 0
  {
  }

  lemma Apart(q1: int, q2: int, m: nat)
    requires q1 < q2
    ensures q2 * m - q1 * m >= m
  {
    var k := q2 - q1;
    Distributes(q1, k, m);
    Distributes(1, k - 1, m);
    NotNegative(k - 1, m);
  }

  /** For every byte string: an accepted clip lies inside the file, is a positive whole number of
      superframes, has no zero parameter, and its loop lies inside the clip. */
  lemma AcceptedIsSound(bytes: seq<Byte>)
    ensures var r := Parse(bytes);
            r.Ok? ==>
              && r.value.dataOffset + r.value.dataSize <= WalkEnd(bytes)
              && WholeSuperframes(r.value)
              && r.value.fmt.channels > 0 && r.value.fmt.sampleRate > 0 && r.value.fmt.samplesPerBlock > 0
              && (r.value.loop.Some? ==> r.value.loop.value.start < r.value.loop.value.end < TotalFrames(r.value))
  {
    hide RiffTag, WaveTag, TotalFrames, Walk;
    if Parse(bytes).Ok? {
      WalkStaysInside(bytes, 12, WalkEnd(bytes), NOTHING);
      var found := Walk(bytes, 12, WalkEnd(bytes), NOTHING).value;
      RoundsDown(found.data.value.size, found.fmt.value.blockAlign);
      TotalIgnoresLoop(Parse(bytes).value);
    }
  }

  lemma TotalIgnoresLoop(clip: Clip)
    ensures forall l :: TotalFrames(clip.(loop := l)) == TotalFrames(clip)
  {
  }

  // --- files as they are written -------------------------------------------------------------------

  datatype Chunk = Chunk(tag: seq<Byte>, content: seq<Byte>)

  predicate WellFormed(c: Chunk) {
    |c.tag| == 4 && |c.content| < WORD
  }

  predicate AllWellFormed(chunks: seq<Chunk>) {
    forall i :: 0 <= i < |chunks| ==> WellFormed(chunks[i])
  }

  function Word(n: nat): (b: seq<Byte>)
    requires n < WORD
    ensures |b| == 4
  {
    [n % 0x100, n / 0x100 % 0x100, n / 0x1_0000 % 0x100, n / 0x100_0000]
  }

  /** Tag, length, content, and a zero byte when that makes the length even. */
  function ChunkBytes(c: Chunk): (b: seq<Byte>)
    requires WellFormed(c)
    ensures |b| == 8 + Padded(|c.content|)
  {
    c.tag + Word(|c.content|) + c.content + (if |c.content| % 2 == 1 then [0] else [])
  }

  function Body(chunks: seq<Chunk>): seq<Byte>
    requires AllWellFormed(chunks)
  {
    if chunks == [] then [] else ChunkBytes(chunks[0]) + Body(chunks[1..])
  }

  /** `behind` is whatever follows the declared end. */
  function File(chunks: seq<Chunk>, behind: seq<Byte>): seq<Byte>
    requires AllWellFormed(chunks) && |Body(chunks)| + 4 < WORD
  {
    RiffTag() + Word(|Body(chunks)| + 4) + WaveTag() + Body(chunks) + behind
  }

  /** The chunks taken one after the other, the first of them at `at`. */
  function Fold(found: Found, chunks: seq<Chunk>, at: nat): Result<Found>
    decreases |chunks|
  {
    if chunks == [] then Ok(found)
    else
      var next := Take(found, chunks[0].tag, chunks[0].content, at + 8);
      if next.Ok? then Fold(next.value, chunks[1..], at + 8 + Padded(|chunks[0].content|)) else next
  }

  lemma WordReads(n: nat, rest: seq<Byte>)
    requires n < WORD
    ensures Le32(Word(n) + rest, 0) == n
  {
    var a := n / 0x100;
    var b := a / 0x100;
    assert n / 0x1_0000 == b && n / 0x100_0000 == b / 0x100;
    assert n == n % 0x100 + 0x100 * a && a == a % 0x100 + 0x100 * b && b == b % 0x100 + 0x100 * (b / 0x100);
  }

  lemma Le32At(bytes: seq<Byte>, off: nat, n: nat)
    requires n < WORD && off + 4 <= |bytes| && bytes[off..off + 4] == Word(n)
    ensures Le32(bytes, off) == n
  {
    var w := bytes[off..off + 4];
    WordReads(n, []);
    assert Word(n) + [] == w;
    assert bytes[off] == w[0] && bytes[off + 1] == w[1] && bytes[off + 2] == w[2] && bytes[off + 3] == w[3];
  }

  lemma ChunkParts(c: Chunk, bytes: seq<Byte>, off: nat)
    requires WellFormed(c) && off + 8 + Padded(|c.content|) <= |bytes|
    requires bytes[off..off + 8 + Padded(|c.content|)] == ChunkBytes(c)
    ensures bytes[off..off + 4] == c.tag && Le32(bytes, off + 4) == |c.content|
    ensures bytes[off + 8..off + 8 + |c.content|] == c.content
  {
    var b := ChunkBytes(c);
    assert b[0..4] == c.tag && b[4..8] == Word(|c.content|) && b[8..8 + |c.content|] == c.content;
    SubSlice(bytes, off, |b|, 0, 4);
    SubSlice(bytes, off, |b|, 4, 8);
    SubSlice(bytes, off, |b|, 8, 8 + |c.content|);
    Le32At(bytes, off + 4, |c.content|);
  }

  /** No further chunk: too short for a header, or with a length that runs past its end. */
  predicate Overrun(tail: seq<Byte>) {
    |tail| < 8 || 8 + Le32(tail, 4) > |tail|
  }

  lemma WalkStops(bytes: seq<Byte>, off: nat, end: nat, found: Found)
    requires off <= end <= |bytes| && Overrun(bytes[off..end])
    ensures Walk(bytes, off, end, found) == Ok(found)
  {
    hide Take;
    var tail := bytes[off..end];
    if |tail| >= 8 {
      assert tail[4] == bytes[off + 4] && tail[5] == bytes[off + 5] && tail[6] == bytes[off + 6] && tail[7] == bytes[off + 7];
      assert Le32(tail, 4) == Le32(bytes, off + 4);
    }
  }

  lemma WalkTakes(bytes: seq<Byte>, off: nat, end: nat, found: Found, c: Chunk, rest: seq<Byte>)
    requires off <= end <= |bytes| && WellFormed(c) && bytes[off..end] == ChunkBytes(c) + rest
    ensures var mid := off + 8 + Padded(|c.content|);
            var next := Take(found, c.tag, c.content, off + 8);
            && mid <= end && bytes[mid..end] == rest
            && Walk(bytes, off, end, found) == if next.Ok? then Walk(bytes, mid, end, next.value) else next
  {
    hide Take, ChunkBytes, Le32, Word;
    var mid := off + 8 + Padded(|c.content|);
    SubSlice(bytes, off, end - off, 0, mid - off);
    SubSlice(bytes, off, end - off, mid - off, end - off);
    assert (ChunkBytes(c) + rest)[0..mid - off] == ChunkBytes(c);
    ChunkParts(c, bytes, off);
  }

  lemma {:induction false} WalkIsFold(bytes: seq<Byte>, off: nat, end: nat, found: Found, chunks: seq<Chunk>, tail: seq<Byte>)
    requires off <= end <= |bytes| && AllWellFormed(chunks) && bytes[off..end] == Body(chunks) + tail && Overrun(tail)
    ensures Walk(bytes, off, end, found) == Fold(found, chunks, off)
    decreases |chunks|
  {
    hide Take, ChunkBytes, Overrun;
    if chunks == [] {
      assert [] + tail == tail;
      WalkStops(bytes, off, end, found);
    } else {
      var c := chunks[0];
      var next := Take(found, c.tag, c.content, off + 8);
      assert bytes[off..end] == ChunkBytes(c) + (Body(chunks[1..]) + tail);
      WalkTakes(bytes, off, end, found, c, Body(chunks[1..]) + tail);
      if next.Ok? {
        WalkIsFold(bytes, off + 8 + Padded(|c.content|), end, next.value, chunks[1..], tail);
      }
    }
  }

  lemma FileParts(chunks: seq<Chunk>, behind: seq<Byte>)
    requires AllWellFormed(chunks) && |Body(chunks)| + 4 < WORD
    ensures var f := File(chunks, behind);
            && |f| >= 12 && TagAt(f, 0, RiffTag()) && TagAt(f, 8, WaveTag())
            && WalkEnd(f) == 12 + |Body(chunks)| && f[12..WalkEnd(f)] == Body(chunks)
  {
    hide Word, Body, Le32;
    var f, size := File(chunks, behind), |Body(chunks)|;
    var head := RiffTag() + Word(size + 4) + WaveTag();
    assert f == head + Body(chunks) + behind && f[..12] == head;
    assert head[0..4] == RiffTag() && head[4..8] == Word(size + 4) && head[8..12] == WaveTag();
    assert f[0..0 + 12] == head;
    SubSlice(f, 0, 12, 0, 4);
    SubSlice(f, 0, 12, 4, 8);
    SubSlice(f, 0, 12, 8, 12);
    Le32At(f, 4, size + 4);
    assert f[12..12 + size] == Body(chunks);
  }

  lemma WrittenParses(chunks: seq<Chunk>, behind: seq<Byte>)
    requires AllWellFormed(chunks) && |Body(chunks)| + 4 < WORD
    ensures var found := Fold(NOTHING, chunks, 12);
            Parse(File(chunks, behind)) == if found.Ok? then Finish(found.value) else Refused(found.reason)
  {
    var f := File(chunks, behind);
    hide File, Walk, Fold, Finish, Body, RiffTag, WaveTag;
    FileParts(chunks, behind);
    assert Body(chunks) + [] == Body(chunks);
    WalkIsFold(f, 12, WalkEnd(f), NOTHING, chunks, []);
  }

  /** A file cut off inside a chunk, or behind a chunk with an impossible length, is read as the chunks
      before it, whatever length it declares. */
  lemma CutOffFileKeepsItsChunks(chunks: seq<Chunk>, tail: seq<Byte>, declared: nat)
    requires AllWellFormed(chunks) && Overrun(tail) && |Body(chunks)| + |tail| + 4 <= declared < WORD
    ensures Parse(RiffTag() + Word(declared) + WaveTag() + (Body(chunks) + tail)) == Parse(File(chunks, []))
  {
    var head := RiffTag() + Word(declared) + WaveTag();
    var f := head + (Body(chunks) + tail);
    hide Word, Body, Le32, Walk, Fold, Finish, Overrun;
    assert head[0..4] == RiffTag() && head[4..8] == Word(declared) && head[8..12] == WaveTag();
    assert f[0..0 + 12] == head && f[12..] == Body(chunks) + tail;
    SubSlice(f, 0, 12, 0, 4);
    SubSlice(f, 0, 12, 4, 8);
    SubSlice(f, 0, 12, 8, 12);
    Le32At(f, 4, declared);
    assert f[12..WalkEnd(f)] == Body(chunks) + tail;
    WalkIsFold(f, 12, WalkEnd(f), NOTHING, chunks, tail);
    WrittenParses(chunks, []);
  }

  /** Where chunk `i` begins. */
  function OffsetOf(chunks: seq<Chunk>, i: nat): nat
    requires i <= |chunks|
  {
    if i == 0 then 0 else OffsetOf(chunks, i - 1) + 8 + Padded(|chunks[i - 1].content|)
  }

  predicate LastOf(chunks: seq<Chunk>, tag: seq<Byte>, i: nat) {
    i < |chunks| && chunks[i].tag == tag && forall j :: i < j < |chunks| ==> chunks[j].tag != tag
  }

  lemma {:induction false} OffsetShifts(chunks: seq<Chunk>, i: nat)
    requires 0 < i <= |chunks|
    ensures OffsetOf(chunks, i) == 8 + Padded(|chunks[0].content|) + OffsetOf(chunks[1..], i - 1)
  {
    if i > 1 {
      OffsetShifts(chunks, i - 1);
    }
  }

  lemma TagsDiffer()
    ensures FmtTag() != DataTag() && FmtTag() != SmplTag() && DataTag() != SmplTag()
  {
    assert FmtTag()[0] != DataTag()[0] && FmtTag()[0] != SmplTag()[0] && DataTag()[0] != SmplTag()[0];
  }

  predicate FmtsValid(chunks: seq<Chunk>) {
    forall i :: 0 <= i < |chunks| && chunks[i].tag == FmtTag() ==> FmtOf(chunks[i].content).Ok?
  }

  predicate Absent(chunks: seq<Chunk>, tag: seq<Byte>) {
    forall i :: 0 <= i < |chunks| ==> chunks[i].tag != tag
  }

  lemma {:induction false} FoldSucceeds(found: Found, chunks: seq<Chunk>, at: nat)
    ensures Fold(found, chunks, at).Ok? <==> FmtsValid(chunks)
    decreases |chunks|
  {
    hide FmtOf, LoopOf, FmtTag, DataTag, SmplTag;
    if chunks != [] {
      var next := Take(found, chunks[0].tag, chunks[0].content, at + 8);
      var rest := chunks[1..];
      assert chunks == [chunks[0]] + rest;
      if next.Ok? {
        FoldSucceeds(next.value, rest, at + 8 + Padded(|chunks[0].content|));
      }
    }
  }

  lemma LastOfRest(chunks: seq<Chunk>, tag: seq<Byte>, i: nat)
    requires LastOf(chunks, tag, i)
    ensures i > 0 ==> LastOf(chunks[1..], tag, i - 1)
    ensures i == 0 ==> Absent(chunks[1..], tag)
  {
    assert forall j :: 0 <= j < |chunks| - 1 ==> chunks[1..][j] == chunks[j + 1];
  }

  lemma {:induction false} FoldKeepsAbsent(found: Found, chunks: seq<Chunk>, at: nat)
    requires Fold(found, chunks, at).Ok?
    ensures Absent(chunks, FmtTag()) ==> Fold(found, chunks, at).value.fmt == found.fmt
    ensures Absent(chunks, DataTag()) ==> Fold(found, chunks, at).value.data == found.data
    decreases |chunks|
  {
    hide FmtOf, LoopOf, FmtTag, DataTag, SmplTag;
    TagsDiffer();
    if chunks != [] {
      var next := Take(found, chunks[0].tag, chunks[0].content, at + 8);
      FoldKeepsAbsent(next.value, chunks[1..], at + 8 + Padded(|chunks[0].content|));
      assert forall i :: 0 <= i < |chunks| - 1 ==> chunks[1..][i] == chunks[i + 1];
    }
  }

  lemma {:induction false} FoldFindsData(found: Found, chunks: seq<Chunk>, at: nat, i: nat)
    requires Fold(found, chunks, at).Ok? && LastOf(chunks, DataTag(), i)
    ensures Fold(found, chunks, at).value.data == Some(Data(at + OffsetOf(chunks, i) + 8, |chunks[i].content|))
    decreases |chunks|
  {
    hide FmtOf, LoopOf, FmtTag, DataTag, SmplTag;
    TagsDiffer();
    LastOfRest(chunks, DataTag(), i);
    var next := Take(found, chunks[0].tag, chunks[0].content, at + 8);
    var at' := at + 8 + Padded(|chunks[0].content|);
    if i > 0 {
      FoldFindsData(next.value, chunks[1..], at', i - 1);
      OffsetShifts(chunks, i);
    } else {
      FoldKeepsAbsent(next.value, chunks[1..], at');
    }
  }

  lemma {:induction false} FoldFindsFmt(found: Found, chunks: seq<Chunk>, at: nat, i: nat)
    requires Fold(found, chunks, at).Ok? && LastOf(chunks, FmtTag(), i)
    ensures FmtOf(chunks[i].content).Ok?
    ensures Fold(found, chunks, at).value.fmt == Some(FmtOf(chunks[i].content).value)
    decreases |chunks|
  {
    hide FmtOf, LoopOf, FmtTag, DataTag, SmplTag;
    TagsDiffer();
    LastOfRest(chunks, FmtTag(), i);
    var next := Take(found, chunks[0].tag, chunks[0].content, at + 8);
    var at' := at + 8 + Padded(|chunks[0].content|);
    if i > 0 {
      FoldFindsFmt(next.value, chunks[1..], at', i - 1);
    } else {
      FoldKeepsAbsent(next.value, chunks[1..], at');
    }
  }

  /** A sampler chunk that gives a loop. */
  predicate Loops(c: Chunk) {
    c.tag == SmplTag() && LoopOf(c.content).Some?
  }

  predicate NoLoop(chunks: seq<Chunk>) {
    forall i :: 0 <= i < |chunks| ==> !Loops(chunks[i])
  }

  predicate LastLoop(chunks: seq<Chunk>, i: nat) {
    i < |chunks| && Loops(chunks[i]) && forall j :: i < j < |chunks| ==> !Loops(chunks[j])
  }

  lemma {:induction false} FoldKeepsNoLoop(found: Found, chunks: seq<Chunk>, at: nat)
    requires Fold(found, chunks, at).Ok? && NoLoop(chunks)
    ensures Fold(found, chunks, at).value.loop == found.loop
    decreases |chunks|
  {
    hide FmtOf, LoopOf, FmtTag, DataTag, SmplTag;
    TagsDiffer();
    if chunks != [] {
      assert !Loops(chunks[0]);
      var next := Take(found, chunks[0].tag, chunks[0].content, at + 8);
      assert forall i :: 0 <= i < |chunks| - 1 ==> chunks[1..][i] == chunks[i + 1];
      FoldKeepsNoLoop(next.value, chunks[1..], at + 8 + Padded(|chunks[0].content|));
    }
  }

  /** The last sampler chunk that gives a loop wins. */
  lemma {:induction false} FoldFindsLoop(found: Found, chunks: seq<Chunk>, at: nat, i: nat)
    requires Fold(found, chunks, at).Ok? && LastLoop(chunks, i)
    ensures Fold(found, chunks, at).value.loop == LoopOf(chunks[i].content)
    decreases |chunks|
  {
    hide FmtOf, LoopOf, FmtTag, DataTag, SmplTag;
    TagsDiffer();
    var next := Take(found, chunks[0].tag, chunks[0].content, at + 8);
    var rest, at' := chunks[1..], at + 8 + Padded(|chunks[0].content|);
    assert forall j :: 0 <= j < |rest| ==> rest[j] == chunks[j + 1];
    if i > 0 {
      assert LastLoop(rest, i - 1);
      FoldFindsLoop(next.value, rest, at', i - 1);
    } else {
      FoldKeepsNoLoop(next.value, rest, at');
    }
  }

  /** The loop a clip keeps of the one that was found: it has to lie inside the clip. */
  function Kept(loop: Option<Loop>, clip: Clip): Option<Loop> {
    if loop.Some? && loop.value.start < loop.value.end < TotalFrames(clip) then loop else None
  }

  predicate NoneZero(fmt: Fmt) {
    fmt.channels > 0 && fmt.sampleRate > 0 && fmt.blockAlign > 0 && fmt.samplesPerBlock > 0
  }

  lemma FinishDecides(found: Found)
    requires found.fmt.Some? && found.data.Some?
    ensures var r, fmt, size := Finish(found), found.fmt.value, found.data.value.size;
            && (r.Ok? <==> NoneZero(fmt) && size >= fmt.blockAlign)
            && (r.Ok? ==>
                  && r.value.fmt == fmt && r.value.dataOffset == found.data.value.offset
                  && WholeSuperframes(r.value) && 0 <= size - r.value.dataSize < fmt.blockAlign
                  && r.value.loop == Kept(found.loop, r.value))
  {
    hide TotalFrames;
    if NoneZero(found.fmt.value) {
      RoundsDown(found.data.value.size, found.fmt.value.blockAlign);
      if Finish(found).Ok? {
        TotalIgnoresLoop(Finish(found).value);
      }
    }
  }

  /** A written file is accepted exactly when all its fmt chunks are ATRAC9's and its last ones are
      usable; the clip then is the whole superframes at the front of the last data chunk, looped as the
      last sampler chunk with a forward loop says if that lies inside the clip. */
  lemma WrittenFileDecides(chunks: seq<Chunk>, behind: seq<Byte>, f: nat, d: nat)
    requires AllWellFormed(chunks) && |Body(chunks)| + 4 < WORD
    requires LastOf(chunks, FmtTag(), f) && LastOf(chunks, DataTag(), d)
    ensures var r := Parse(File(chunks, behind));
            var fmt := FmtOf(chunks[f].content);
            && (r.Ok? <==> FmtsValid(chunks) && NoneZero(fmt.value) && |chunks[d].content| >= fmt.value.blockAlign)
            && (r.Ok? ==>
                  && r.value.fmt == fmt.value
                  && r.value.dataOffset == 12 + OffsetOf(chunks, d) + 8
                  && WholeSuperframes(r.value)
                  && 0 <= |chunks[d].content| - r.value.dataSize < fmt.value.blockAlign
                  && (NoLoop(chunks) ==> r.value.loop == None)
                  && (forall i: nat :: LastLoop(chunks, i) ==> r.value.loop == Kept(LoopOf(chunks[i].content), r.value)))
  {
    hide Parse, File, Fold, FmtOf, LoopOf, FmtTag, DataTag, SmplTag, OffsetOf, Finish, WholeSuperframes, NoLoop, TotalFrames;
    WrittenParses(chunks, behind);
    FoldSucceeds(NOTHING, chunks, 12);
    var found := Fold(NOTHING, chunks, 12);
    if found.Ok? {
      FoldFindsData(NOTHING, chunks, 12, d);
      FoldFindsFmt(NOTHING, chunks, 12, f);
      FinishDecides(found.value);
      if NoLoop(chunks) {
        FoldKeepsNoLoop(NOTHING, chunks, 12);
      }
      forall i: nat | LastLoop(chunks, i) ensures found.value.loop == LoopOf(chunks[i].content) {
        FoldFindsLoop(NOTHING, chunks, 12, i);
      }
    }
  }

  /** Without a fmt chunk or without a data chunk nothing is accepted. */
  lemma MissingChunkRefused(chunks: seq<Chunk>, behind: seq<Byte>)
    requires AllWellFormed(chunks) && |Body(chunks)| + 4 < WORD
    requires Absent(chunks, FmtTag()) || Absent(chunks, DataTag())
    ensures Parse(File(chunks, behind)).Refused?
  {
    WrittenParses(chunks, behind);
    hide Parse, File, Fold, FmtTag, DataTag;
    if Fold(NOTHING, chunks, 12).Ok? {
      FoldKeepsAbsent(NOTHING, chunks, 12);
    }
  }

  // --- the cursor ----------------------------------------------------------------------------------

  function NextFrame(clip: Clip, frame: nat): nat {
    var total := TotalFrames(clip);
    var next := frame + 1;
    if total == 0 then 0
    else if clip.loop.Some? then (if next > clip.loop.value.end then clip.loop.value.start else next)
    else if next >= total then 0 else next
  }

  function FrameAfter(clip: Clip, steps: nat): nat {
    if steps == 0 then 0 else NextFrame(clip, FrameAfter(clip, steps - 1))
  }

  lemma RemainderSteps(n: nat, m: nat)
    requires m > 0
    ensures (n + 1) % m == if n % m + 1 == m then 0 else n % m + 1
  {
    var q, r := n / m, n % m;
    if r + 1 == m {
      assert n + 1 == (q + 1) * m + 0;
      SameQuotient((n + 1) / m, (n + 1) % m, q + 1, 0, m);
    } else {
      assert n + 1 == q * m + (r + 1);
      SameQuotient((n + 1) / m, (n + 1) % m, q, r + 1, m);
    }
  }

  /** Straight to the loop's end and then around the loop. */
  function Around(l: Loop, n: nat): nat
    requires l.start < l.end
  {
    if n <= l.end then n else l.start + (n - l.start) % (l.end - l.start + 1)
  }

  lemma AroundSteps(l: Loop, n: nat)
    requires l.start < l.end
    ensures Around(l, n) <= l.end
    ensures Around(l, n + 1) == if Around(l, n) == l.end then l.start else Around(l, n) + 1
  {
    var period := l.end - l.start + 1;
    if n >= l.end {
      var k := n - l.start;
      RemainderSteps(k, period);
      if n == l.end {
        SameQuotient(k / period, k % period, 0, k, period);
      }
    }
  }

  /** Played from the beginning: around the loop, or around the whole clip when there is no loop. */
  lemma {:induction false} PlaysAround(clip: Clip, n: nat)
    requires TotalFrames(clip) > 0
    requires clip.loop.Some? ==> clip.loop.value.start < clip.loop.value.end < TotalFrames(clip)
    ensures FrameAfter(clip, n) == if clip.loop.Some? then Around(clip.loop.value, n) else n % TotalFrames(clip)
    ensures FrameAfter(clip, n) < TotalFrames(clip)
  {
    hide TotalFrames, Around;
    if n > 0 {
      PlaysAround(clip, n - 1);
      if clip.loop.Some? {
        AroundSteps(clip.loop.value, n - 1);
        AroundSteps(clip.loop.value, n);
      } else {
        RemainderSteps(n - 1, TotalFrames(clip));
      }
    } else if clip.loop.Some? {
      AroundStarts(clip.loop.value);
    }
  }

  lemma AroundStarts(l: Loop)
    requires l.start < l.end
    ensures Around(l, 0) == 0
  {
  }
}

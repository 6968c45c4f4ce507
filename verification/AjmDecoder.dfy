/** The persistent stream decoder behind the AJM seam: a carry of converted PCM with an offset,
    compaction and backpressure, fed by packets cut either one per call or out of a length-prefixed
    Opus stream. The codec is an oracle: what it answers to a packet is a function of every packet it
    was ever sent. A sample carries the width of the interleaved frame it belongs to. */
module AjmDecoder {
  import opened Wrappers

  const MAX_CARRY_SAMPLES: nat := 1024 * 1024
  const MAX_PACKET_BYTES: nat := 1275 * 8

  type Byte = x: int | 0 <= x < 256
  type Packet = seq<Byte>

  datatype Sample = Sample(value: int, width: nat)

  /** One decoded frame after conversion. `format` stands for everything that makes the resampler be
      rebuilt: sample format, rate and layout. */
  datatype Frame = Frame(format: int, channels: nat, rate: nat, resamplerOpens: bool, samples: seq<Sample>)

  /** The frames one `receive_frames` loop sees before the codec asks for input (`ok`) or errs. */
  datatype Received = Received(frames: seq<Frame>, ok: bool)

  datatype Sent = Refused | Accepted(after: Received) | Again(before: Received, resent: bool, after: Received)

  type Codec = seq<Packet> -> Sent

  datatype Framing = Unit | OpusStream

  datatype Decoder = Decoder(
    valid: bool, maxChannels: nat, format: Option<int>, channels: nat, sampleRate: nat,
    carry: seq<Sample>, offset: nat, fed: seq<Packet>)

  function Fresh(maxChannels: nat): Decoder {
    Decoder(true, maxChannels, None, 0, 0, [], 0, [])
  }

  function Retained(d: Decoder): seq<Sample>
    requires d.offset <= |d.carry|
  {
    d.carry[d.offset..]
  }

  // --- draining ------------------------------------------------------------------------------------

  function Compacted(d: Decoder): Decoder
    requires d.offset <= |d.carry|
  {
    if d.offset == |d.carry| then d.(carry := [], offset := 0)
    else if d.offset > MAX_CARRY_SAMPLES / 2 then d.(carry := d.carry[d.offset..], offset := 0)
    else d
  }

  /** How much of the carry fits, never a partial interleaved frame. */
  function DrainCount(d: Decoder, room: nat): (n: nat)
    requires d.offset <= |d.carry|
    ensures n <= room && n <= |Retained(d)|
  {
    Fitting(|d.carry| - d.offset, room, d.channels)
  }

  function Fitting(available: nat, room: nat, channels: nat): (n: nat)
    ensures n <= room && n <= available
  {
    var count := if available < room then available else room;
    if channels > 0 then RoundedDown(count, channels) else count
  }

  function RoundedDown(n: nat, c: nat): (r: nat)
    requires c > 0
    ensures r <= n < r + c
  {
    n - n % c
  }

  function Drained(d: Decoder, room: nat): seq<Sample>
    requires d.offset <= |d.carry|
  {
    d.carry[d.offset..d.offset + DrainCount(d, room)]
  }

  function AfterDrain(d: Decoder, room: nat): (e: Decoder)
    requires d.offset <= |d.carry|
    ensures e.offset <= |e.carry|
  {
    Compacted(d.(offset := d.offset + DrainCount(d, room)))
  }

  // --- receiving -----------------------------------------------------------------------------------

  function Configured(d: Decoder, f: Frame): Option<Decoder>
    requires d.offset <= |d.carry|
  {
    if d.format == Some(f.format) then Some(d)
    else if f.channels == 0 || f.channels > d.maxChannels then None
    else if d.channels != 0 && f.channels != d.channels && d.offset != |d.carry| then None
    else if !f.resamplerOpens || f.rate == 0 then None
    else Some(d.(format := Some(f.format), channels := f.channels, sampleRate := f.rate))
  }

  function ReceiveFrames(d: Decoder, r: Received): (o: Option<Decoder>)
    requires d.offset <= |d.carry|
    ensures o.Some? ==> o.value.offset == d.offset <= |o.value.carry|
    decreases |r.frames|
  {
    if r.frames == [] then (if r.ok then Some(d) else None)
    else
      var c := Configured(d, r.frames[0]);
      if c.None? then None
      else ReceiveFrames(c.value.(carry := d.carry + r.frames[0].samples), Received(r.frames[1..], r.ok))
  }

  function Send(codec: Codec, d: Decoder, packet: Packet): (o: Option<Decoder>)
    requires d.offset <= |d.carry|
    ensures o.Some? ==> o.value.offset <= |o.value.carry|
  {
    var sent := d.(fed := d.fed + [packet]);
    match codec(sent.fed)
    case Refused => None
    case Accepted(after) => ReceiveFrames(sent, after)
    case Again(before, resent, after) =>
      var first := ReceiveFrames(sent, before);
      if first.None? || !resent then None else ReceiveFrames(first.value, after)
  }

  // --- one call ------------------------------------------------------------------------------------

  /** What one call did: the decoder afterwards, what the guest is told, and the samples it was given. */
  datatype Outcome = Outcome(decoder: Decoder, ok: bool, consumed: nat, out: seq<Sample>)

  function Invalidated(d: Decoder): Decoder {
    d.(valid := false, carry := [], offset := 0)
  }

  function Failure(d: Decoder): Outcome {
    Outcome(Invalidated(d), false, 0, [])
  }

  function PacketLength(input: seq<Byte>, at: nat): nat
    requires at + 2 <= |input|
  {
    input[at] as int + 256 * (input[at + 1] as int)
  }

  /** One packet sent and what fits of the carry drained. */
  datatype Turn = Turn(decoder: Decoder, out: seq<Sample>)

  function TakeTurn(codec: Codec, d: Decoder, packet: Packet, room: nat): (t: Option<Turn>)
    requires d.offset <= |d.carry|
    ensures t.Some? ==> t.value.decoder.offset <= |t.value.decoder.carry| && |t.value.out| <= room
  {
    var sent := Send(codec, d, packet);
    if sent.None? then None else Some(Turn(AfterDrain(sent.value, room), Drained(sent.value, room)))
  }

  /** The next packet is complete, plausible, and there is room for what it will give. */
  predicate CanRetire(d: Decoder, input: seq<Byte>, at: nat, given: nat, room: nat)
    requires d.offset <= |d.carry|
  {
    && at + 2 <= |input|
    && PacketLength(input, at) <= MAX_PACKET_BYTES
    && at + 2 + PacketLength(input, at) <= |input|
    && given < room
    && |Retained(d)| < MAX_CARRY_SAMPLES
  }

  predicate Desynchronised(input: seq<Byte>, at: nat) {
    at + 2 <= |input| && PacketLength(input, at) > MAX_PACKET_BYTES
  }

  function NextPacket(input: seq<Byte>, at: nat): Packet
    requires at + 2 <= |input| && at + 2 + PacketLength(input, at) <= |input|
  {
    input[at + 2..at + 2 + PacketLength(input, at)]
  }

  /** Complete packets are retired from `at` on while there is room for their samples. */
  function RetirePackets(codec: Codec, d: Decoder, input: seq<Byte>, at: nat, out: seq<Sample>, room: nat): (o: Outcome)
    requires d.offset <= |d.carry| && at <= |input| && |out| <= room
    ensures o.decoder.offset <= |o.decoder.carry| && |o.out| <= room && o.consumed <= |input|
    decreases |input| - at
  {
    if Desynchronised(input, at) then Failure(d)
    else if !CanRetire(d, input, at, |out|, room) then Outcome(d, true, at, out)
    else
      var t := TakeTurn(codec, d, NextPacket(input, at), room - |out|);
      if t.None? then Failure(d)
      else RetirePackets(codec, t.value.decoder, input, at + 2 + PacketLength(input, at), out + t.value.out, room)
  }

  function DecodeUnit(codec: Codec, d: Decoder, input: seq<Byte>, out: seq<Sample>, room: nat): (o: Outcome)
    requires d.offset <= |d.carry| && |out| <= room
    ensures o.decoder.offset <= |o.decoder.carry| && |o.out| <= room && o.consumed <= |input|
  {
    if input == [] then Outcome(d, true, 0, out)
    else
      var t := TakeTurn(codec, d, input, room - |out|);
      if t.None? then Failure(d) else Outcome(t.value.decoder, true, |input|, out + t.value.out)
  }

  /** What follows once the carry was drained and is below the high-water mark. */
  function DecodeInput(codec: Codec, framing: Framing, d: Decoder, input: seq<Byte>, out: seq<Sample>, room: nat): (o: Outcome)
    requires d.offset <= |d.carry| && |out| <= room
    ensures o.decoder.offset <= |o.decoder.carry| && |o.out| <= room && o.consumed <= |input|
  {
    match framing
    case OpusStream => RetirePackets(codec, d, input, 0, out, room)
    case Unit => DecodeUnit(codec, d, input, out, room)
  }

  function Decode(codec: Codec, framing: Framing, d: Decoder, input: seq<Byte>, room: nat): (o: Outcome)
    requires d.offset <= |d.carry|
    ensures o.decoder.offset <= |o.decoder.carry| && |o.out| <= room && o.consumed <= |input|
  {
    if !d.valid then Outcome(d, false, 0, [])
    else
      var out := Drained(d, room);
      var e := AfterDrain(d, room);
      if |Retained(e)| >= MAX_CARRY_SAMPLES then Outcome(e, true, 0, out)
      else DecodeInput(codec, framing, e, input, out, room)
  }

  // --- what the codec produced ---------------------------------------------------------------------

  function FrameSamples(frames: seq<Frame>): seq<Sample> {
    if frames == [] then [] else frames[0].samples + FrameSamples(frames[1..])
  }

  function AnswerSamples(a: Sent): seq<Sample> {
    match a
    case Refused => []
    case Accepted(after) => FrameSamples(after.frames)
    case Again(before, _, after) => FrameSamples(before.frames) + FrameSamples(after.frames)
  }

  /** Everything converted for the packets of a history, in order. */
  function Pcm(codec: Codec, fed: seq<Packet>): seq<Sample> {
    if fed == [] then [] else Pcm(codec, fed[..|fed| - 1]) + AnswerSamples(codec(fed))
  }

  function Times(k: nat, c: nat): nat {
    k * c
  }

  ghost predicate Multiple(n: nat, c: nat) {
    exists k: nat :: n == Times(k, c)
  }

  /** The resampler yields whole interleaved frames of the frame's own width. */
  ghost predicate FrameIsWhole(f: Frame) {
    && (f.channels > 0 ==> Multiple(|f.samples|, f.channels))
    && (forall s :: s in f.samples ==> s.width == f.channels)
  }

  ghost predicate AllWhole(frames: seq<Frame>, widths: map<int, nat>) {
    forall i :: 0 <= i < |frames| ==>
      FrameIsWhole(frames[i]) && frames[i].format in widths && widths[frames[i].format] == frames[i].channels
  }

  ghost predicate AnswerIsWhole(a: Sent, widths: map<int, nat>) {
    match a
    case Refused => true
    case Accepted(after) => AllWhole(after.frames, widths)
    case Again(before, _, after) => AllWhole(before.frames, widths) && AllWhole(after.frames, widths)
  }

  /** `widths` gives the channel count each format stands for. */
  ghost predicate CodecIsWhole(codec: Codec, widths: map<int, nat>) {
    forall fed: seq<Packet> :: AnswerIsWhole(codec(fed), widths)
  }

  ghost predicate AnswersAtMost(codec: Codec, samples: nat) {
    forall fed: seq<Packet> :: |AnswerSamples(codec(fed))| <= samples
  }

  // --- invariant -----------------------------------------------------------------------------------

  /** What is retained is whole interleaved frames of the current width, and none other. */
  ghost predicate WholeFrames(d: Decoder, widths: map<int, nat>)
    requires d.offset <= |d.carry|
  {
    && (d.channels == 0 ==> Retained(d) == [] && d.format.None?)
    && (d.channels > 0 ==> Multiple(|Retained(d)|, d.channels))
    && (forall s :: s in Retained(d) ==> s.width == d.channels)
    && (d.format.Some? ==> d.format.value in widths && widths[d.format.value] == d.channels)
    && d.channels <= d.maxChannels
  }

  /** `given` is everything the guest has been given so far. */
  predicate Conserved(codec: Codec, d: Decoder, given: seq<Sample>)
    requires d.offset <= |d.carry|
  {
    given + Retained(d) == Pcm(codec, d.fed)
  }

  // --- draining changes nothing observable ---------------------------------------------------------

  lemma DrainMovesPrefix(d: Decoder, room: nat)
    requires d.offset <= |d.carry|
    ensures Drained(d, room) + Retained(AfterDrain(d, room)) == Retained(d)
    ensures AfterDrain(d, room) == d.(carry := AfterDrain(d, room).carry, offset := AfterDrain(d, room).offset)
    ensures AfterDrain(d, room).offset <= MAX_CARRY_SAMPLES / 2
  {
    var n := DrainCount(d, room);
    assert d.carry[d.offset..] == d.carry[d.offset..d.offset + n] + d.carry[d.offset + n..];
  }

  lemma MultiplesSubtract(a: nat, b: nat, c: nat)
    requires Multiple(a, c) && Multiple(b, c) && b <= a
    ensures Multiple(a - b, c)
  {
    var x: nat :| a == Times(x, c);
    var y: nat :| b == Times(y, c);
    if x >= y {
      assert a - b == Times(x - y, c);
    } else {
      assert b - a == Times(y - x, c);
      assert a - b == Times(0, c);
    }
  }

  lemma MultiplesAdd(a: nat, b: nat, c: nat)
    requires Multiple(a, c) && Multiple(b, c)
    ensures Multiple(a + b, c)
  {
    var x: nat :| a == Times(x, c);
    var y: nat :| b == Times(y, c);
    assert a + b == Times(x + y, c);
  }

  lemma RoundedDownIsMultiple(n: nat, c: nat)
    requires c > 0
    ensures Multiple(RoundedDown(n, c), c)
  {
    assert RoundedDown(n, c) == Times(n / c, c);
  }

  /** Every drain hands over whole interleaved frames of one width and keeps the rest whole. */
  lemma DrainKeepsFramesWhole(d: Decoder, room: nat, widths: map<int, nat>)
    requires d.offset <= |d.carry| && WholeFrames(d, widths)
    ensures WholeFrames(AfterDrain(d, room), widths)
    ensures d.channels > 0 ==> Multiple(|Drained(d, room)|, d.channels)
    ensures forall s :: s in Drained(d, room) ==> s.width == d.channels
  {
    var out, e := Drained(d, room), AfterDrain(d, room);
    DrainMovesPrefix(d, room);
    assert |out| + |Retained(e)| == |Retained(d)|;
    if d.channels > 0 {
      var available := |d.carry| - d.offset;
      RoundedDownIsMultiple(if available < room then available else room, d.channels);
      MultiplesSubtract(|Retained(d)|, |out|, d.channels);
    }
    assert forall s :: s in Retained(e) ==> s in out + Retained(e);
    assert forall s :: s in out ==> s in out + Retained(e);
  }

  // --- receiving appends exactly what was converted ------------------------------------------------

  lemma {:induction false} ReceivingAppends(d: Decoder, r: Received)
    requires d.offset <= |d.carry|
    ensures var o := ReceiveFrames(d, r);
            o.Some? ==>
              && o.value.carry == d.carry + FrameSamples(r.frames)
              && o.value.fed == d.fed && o.value.offset == d.offset && o.value.valid == d.valid
              && o.value.maxChannels == d.maxChannels
    decreases |r.frames|
  {
    if r.frames != [] {
      var c := Configured(d, r.frames[0]);
      if c.Some? {
        ReceivingAppends(c.value.(carry := d.carry + r.frames[0].samples), Received(r.frames[1..], r.ok));
        assert d.carry + r.frames[0].samples + FrameSamples(r.frames[1..])
            == d.carry + (r.frames[0].samples + FrameSamples(r.frames[1..]));
      } else {
        assert ReceiveFrames(d, r).None?;
      }
    } else {
      assert d.carry + [] == d.carry;
    }
  }

  lemma SendingAppends(codec: Codec, d: Decoder, packet: Packet)
    requires d.offset <= |d.carry|
    ensures var o := Send(codec, d, packet);
            o.Some? ==>
              && o.value.carry == d.carry + AnswerSamples(codec(d.fed + [packet]))
              && o.value.fed == d.fed + [packet] && o.value.offset == d.offset && o.value.valid == d.valid
              && o.value.maxChannels == d.maxChannels
  {
    var sent := d.(fed := d.fed + [packet]);
    match codec(sent.fed)
    case Refused =>
    case Accepted(after) => ReceivingAppends(sent, after);
    case Again(before, resent, after) =>
      ReceivingAppends(sent, before);
      var first := ReceiveFrames(sent, before);
      if first.Some? {
        ReceivingAppends(first.value, after);
        assert d.carry + FrameSamples(before.frames) + FrameSamples(after.frames)
            == d.carry + (FrameSamples(before.frames) + FrameSamples(after.frames));
      }
  }

  lemma {:induction false} ReceivingKeepsFramesWhole(d: Decoder, r: Received, widths: map<int, nat>)
    requires d.offset <= |d.carry| && WholeFrames(d, widths) && AllWhole(r.frames, widths)
    ensures ReceiveFrames(d, r).Some? ==> WholeFrames(ReceiveFrames(d, r).value, widths)
    decreases |r.frames|
  {
    if r.frames != [] {
      var f := r.frames[0];
      var c := Configured(d, f);
      if c.Some? {
        var e := c.value.(carry := d.carry + f.samples);
        assert e.channels == f.channels;
        assert Retained(e) == Retained(d) + f.samples;
        assert f.channels != d.channels ==> Retained(d) == [];
        if e.channels > 0 {
          assert Times(0, e.channels) == 0;
          MultiplesAdd(|Retained(d)|, |f.samples|, e.channels);
        }
        ReceivingKeepsFramesWhole(e, Received(r.frames[1..], r.ok), widths);
      } else {
        assert ReceiveFrames(d, r).None?;
      }
    }
  }

  lemma SendingKeepsFramesWhole(codec: Codec, d: Decoder, packet: Packet, widths: map<int, nat>)
    requires d.offset <= |d.carry| && WholeFrames(d, widths) && CodecIsWhole(codec, widths)
    ensures Send(codec, d, packet).Some? ==> WholeFrames(Send(codec, d, packet).value, widths)
  {
    var sent := d.(fed := d.fed + [packet]);
    assert WholeFrames(sent, widths);
    assert AnswerIsWhole(codec(sent.fed), widths);
    match codec(sent.fed)
    case Refused =>
    case Accepted(after) => ReceivingKeepsFramesWhole(sent, after, widths);
    case Again(before, resent, after) =>
      ReceivingKeepsFramesWhole(sent, before, widths);
      var first := ReceiveFrames(sent, before);
      if first.Some? {
        ReceivingKeepsFramesWhole(first.value, after, widths);
      }
  }

  // --- conservation --------------------------------------------------------------------------------

  lemma TurnConserves(codec: Codec, d: Decoder, packet: Packet, given: seq<Sample>, room: nat)
    requires d.offset <= |d.carry| && Conserved(codec, d, given) && TakeTurn(codec, d, packet, room).Some?
    ensures var t := TakeTurn(codec, d, packet, room).value;
            Conserved(codec, t.decoder, given + t.out) && t.decoder.valid == d.valid && t.decoder.fed == d.fed + [packet]
  {
    SendingConserves(codec, d, packet, given);
    var e := Send(codec, d, packet).value;
    hide Pcm, Send;
    DrainingConserves(codec, e, room, given);
  }

  lemma SendingConserves(codec: Codec, d: Decoder, packet: Packet, given: seq<Sample>)
    requires d.offset <= |d.carry| && Conserved(codec, d, given) && Send(codec, d, packet).Some?
    ensures var e := Send(codec, d, packet).value;
            Conserved(codec, e, given) && e.valid == d.valid && e.fed == d.fed + [packet]
  {
    SendingAppends(codec, d, packet);
    var e := Send(codec, d, packet).value;
    hide Send;
    var added := AnswerSamples(codec(e.fed));
    hide AnswerSamples;
    assert e.fed[..|e.fed| - 1] == d.fed;
    assert Pcm(codec, e.fed) == Pcm(codec, d.fed) + added;
    assert Retained(e) == Retained(d) + added;
    Associates(given, Retained(d), added);
  }

  lemma DrainingConserves(codec: Codec, d: Decoder, room: nat, given: seq<Sample>)
    requires d.offset <= |d.carry| && Conserved(codec, d, given)
    ensures Conserved(codec, AfterDrain(d, room), given + Drained(d, room))
    ensures AfterDrain(d, room).valid == d.valid && AfterDrain(d, room).fed == d.fed
  {
    DrainMovesPrefix(d, room);
    hide Pcm, AfterDrain, Drained, Retained;
    Associates(given, Drained(d, room), Retained(AfterDrain(d, room)));
  }

  lemma Associates(a: seq<Sample>, b: seq<Sample>, c: seq<Sample>)
    ensures a + b + c == a + (b + c)
  {
  }

  lemma {:induction false} RetiringConserves(codec: Codec, d: Decoder, input: seq<Byte>, at: nat, out: seq<Sample>, room: nat, given: seq<Sample>)
    requires d.offset <= |d.carry| && at <= |input| && |out| <= room && d.valid && Conserved(codec, d, given + out)
    ensures var o := RetirePackets(codec, d, input, at, out, room);
            o.ok == o.decoder.valid && (o.ok ==> Conserved(codec, o.decoder, given + o.out))
    decreases |input| - at
  {
    hide TakeTurn, Conserved;
    if !Desynchronised(input, at) && CanRetire(d, input, at, |out|, room) {
      var t := TakeTurn(codec, d, NextPacket(input, at), room - |out|);
      if t.Some? {
        TurnConserves(codec, d, NextPacket(input, at), given + out, room - |out|);
        Associates(given, out, t.value.out);
        RetiringConserves(codec, t.value.decoder, input, at + 2 + PacketLength(input, at), out + t.value.out, room, given);
      }
    }
  }

  /** One call, any input, any output size: it fails exactly when it leaves the decoder invalid, and
      otherwise what the guest got so far followed by what is retained is exactly what was converted
      for the packets sent. */
  lemma DecodeConserves(codec: Codec, framing: Framing, d: Decoder, input: seq<Byte>, room: nat, given: seq<Sample>)
    requires d.offset <= |d.carry| && d.valid && Conserved(codec, d, given)
    ensures var o := Decode(codec, framing, d, input, room);
            o.ok == o.decoder.valid && (o.ok ==> Conserved(codec, o.decoder, given + o.out))
  {
    var out, e := Drained(d, room), AfterDrain(d, room);
    DrainingConserves(codec, d, room, given);
    hide DecodeInput, AfterDrain, Drained, Conserved;
    InputConserves(codec, framing, e, input, out, room, given);
  }

  lemma InputConserves(codec: Codec, framing: Framing, d: Decoder, input: seq<Byte>, out: seq<Sample>, room: nat, given: seq<Sample>)
    requires d.offset <= |d.carry| && |out| <= room && d.valid && Conserved(codec, d, given + out)
    ensures var o := DecodeInput(codec, framing, d, input, out, room);
            o.ok == o.decoder.valid && (o.ok ==> Conserved(codec, o.decoder, given + o.out))
  {
    hide TakeTurn, Conserved;
    match framing
    case OpusStream => RetiringConserves(codec, d, input, 0, out, room, given);
    case Unit =>
      if input != [] && TakeTurn(codec, d, input, room - |out|).Some? {
        TurnConserves(codec, d, input, given + out, room - |out|);
        Associates(given, out, TakeTurn(codec, d, input, room - |out|).value.out);
      }
  }

  // --- whole frames and bounds through a call ------------------------------------------------------

  /** Retained PCM is whole, and bounded by the high-water mark plus what one packet can add. */
  ghost predicate Bounded(d: Decoder, widths: map<int, nat>, perPacket: nat)
    requires d.offset <= |d.carry|
  {
    WholeFrames(d, widths) && |Retained(d)| < MAX_CARRY_SAMPLES + perPacket && d.offset <= MAX_CARRY_SAMPLES / 2
  }

  ghost predicate WellBehaved(codec: Codec, widths: map<int, nat>, perPacket: nat) {
    CodecIsWhole(codec, widths) && AnswersAtMost(codec, perPacket)
  }

  lemma TurnBounded(codec: Codec, d: Decoder, packet: Packet, room: nat, widths: map<int, nat>, perPacket: nat)
    requires d.offset <= |d.carry| && WholeFrames(d, widths) && |Retained(d)| < MAX_CARRY_SAMPLES
    requires WellBehaved(codec, widths, perPacket) && TakeTurn(codec, d, packet, room).Some?
    ensures Bounded(TakeTurn(codec, d, packet, room).value.decoder, widths, perPacket)
  {
    SendingAppends(codec, d, packet);
    SendingKeepsFramesWhole(codec, d, packet, widths);
    var e := Send(codec, d, packet).value;
    assert |AnswerSamples(codec(d.fed + [packet]))| <= perPacket;
    DrainKeepsFramesWhole(e, room, widths);
    DrainMovesPrefix(e, room);
    assert |Drained(e, room)| + |Retained(AfterDrain(e, room))| == |Retained(e)|;
  }

  lemma {:induction false} RetiringBounded(codec: Codec, d: Decoder, input: seq<Byte>, at: nat, out: seq<Sample>, room: nat, widths: map<int, nat>, perPacket: nat)
    requires d.offset <= |d.carry| && at <= |input| && |out| <= room && Bounded(d, widths, perPacket)
    requires WellBehaved(codec, widths, perPacket)
    ensures var o := RetirePackets(codec, d, input, at, out, room); o.ok ==> Bounded(o.decoder, widths, perPacket)
    decreases |input| - at
  {
    hide TakeTurn, NextPacket, WholeFrames, WellBehaved;
    if !Desynchronised(input, at) && CanRetire(d, input, at, |out|, room) {
      var t := TakeTurn(codec, d, NextPacket(input, at), room - |out|);
      if t.Some? {
        TurnBounded(codec, d, NextPacket(input, at), room - |out|, widths, perPacket);
        RetiringBounded(codec, t.value.decoder, input, at + 2 + PacketLength(input, at), out + t.value.out, room, widths, perPacket);
      }
    }
  }

  lemma DecodeBounded(codec: Codec, framing: Framing, d: Decoder, input: seq<Byte>, room: nat, widths: map<int, nat>, perPacket: nat)
    requires d.offset <= |d.carry| && d.valid && Bounded(d, widths, perPacket)
    requires WellBehaved(codec, widths, perPacket)
    ensures var o := Decode(codec, framing, d, input, room); o.ok ==> Bounded(o.decoder, widths, perPacket)
  {
    var out, e := Drained(d, room), AfterDrain(d, room);
    hide DecodeInput;
    DrainKeepsFramesWhole(d, room, widths);
    DrainMovesPrefix(d, room);
    assert |out| + |Retained(e)| == |Retained(d)|;
    if |Retained(e)| < MAX_CARRY_SAMPLES {
      InputBounded(codec, framing, e, input, out, room, widths, perPacket);
    }
  }

  lemma InputBounded(codec: Codec, framing: Framing, d: Decoder, input: seq<Byte>, out: seq<Sample>, room: nat, widths: map<int, nat>, perPacket: nat)
    requires d.offset <= |d.carry| && |out| <= room && Bounded(d, widths, perPacket) && |Retained(d)| < MAX_CARRY_SAMPLES
    requires WellBehaved(codec, widths, perPacket)
    ensures var o := DecodeInput(codec, framing, d, input, out, room); o.ok ==> Bounded(o.decoder, widths, perPacket)
  {
    hide TakeTurn;
    match framing
    case OpusStream => RetiringBounded(codec, d, input, 0, out, room, widths, perPacket);
    case Unit =>
      if input != [] && TakeTurn(codec, d, input, room - |out|).Some? {
        TurnBounded(codec, d, input, room - |out|, widths, perPacket);
      }
  }

  // --- what is given is whole frames ---------------------------------------------------------------

  /** One interleaved frame after the other, each as wide as its samples say. */
  predicate Framed(s: seq<Sample>)
    decreases |s|
  {
    s == [] ||
    (0 < s[0].width <= |s| && (forall i :: 0 <= i < s[0].width ==> s[i].width == s[0].width) && Framed(s[s[0].width..]))
  }

  lemma {:induction false} FramedJoins(a: seq<Sample>, b: seq<Sample>)
    requires Framed(a) && Framed(b)
    ensures Framed(a + b)
    decreases |a|
  {
    if a == [] {
      assert a + b == b;
    } else {
      var w := a[0].width;
      FramedJoins(a[w..], b);
      assert (a + b)[w..] == a[w..] + b;
      assert forall i :: 0 <= i < w ==> (a + b)[i] == a[i];
    }
  }

  lemma {:induction false} WholeIsFramed(s: seq<Sample>, c: nat, k: nat)
    requires c > 0 && |s| == Times(k, c) && forall x :: x in s ==> x.width == c
    ensures Framed(s)
    decreases k
  {
    if k > 0 {
      TimesStep(k - 1, c);
      assert s[0] in s;
      assert forall i :: 0 <= i < c ==> s[i] in s;
      WholeIsFramed(s[c..], c, k - 1);
    }
  }

  lemma TimesStep(k: nat, c: nat)
    ensures Times(k + 1, c) == Times(k, c) + c && Times(0, c) == 0
  {
  }

  lemma DrainIsFramed(d: Decoder, room: nat, widths: map<int, nat>)
    requires d.offset <= |d.carry| && WholeFrames(d, widths)
    ensures Framed(Drained(d, room)) && WholeFrames(AfterDrain(d, room), widths)
  {
    DrainKeepsFramesWhole(d, room, widths);
    var out := Drained(d, room);
    if d.channels > 0 {
      var k: nat :| |out| == Times(k, d.channels);
      hide WholeFrames, Drained;
      WholeIsFramed(out, d.channels, k);
    } else {
      DrainMovesPrefix(d, room);
      assert |out| <= |Retained(d)|;
    }
  }

  lemma TurnIsFramed(codec: Codec, d: Decoder, packet: Packet, room: nat, widths: map<int, nat>)
    requires d.offset <= |d.carry| && WholeFrames(d, widths) && CodecIsWhole(codec, widths)
    requires TakeTurn(codec, d, packet, room).Some?
    ensures var t := TakeTurn(codec, d, packet, room).value; Framed(t.out) && WholeFrames(t.decoder, widths)
  {
    SendingKeepsFramesWhole(codec, d, packet, widths);
    hide WholeFrames, CodecIsWhole, Send;
    DrainIsFramed(Send(codec, d, packet).value, room, widths);
  }

  lemma {:induction false} RetiringIsFramed(codec: Codec, d: Decoder, input: seq<Byte>, at: nat, out: seq<Sample>, room: nat, widths: map<int, nat>)
    requires d.offset <= |d.carry| && at <= |input| && |out| <= room
    requires WholeFrames(d, widths) && CodecIsWhole(codec, widths) && Framed(out)
    ensures var o := RetirePackets(codec, d, input, at, out, room);
            Framed(o.out) && (o.ok ==> WholeFrames(o.decoder, widths))
    decreases |input| - at
  {
    hide TakeTurn, NextPacket, WholeFrames, CodecIsWhole;
    if !Desynchronised(input, at) && CanRetire(d, input, at, |out|, room) {
      var t := TakeTurn(codec, d, NextPacket(input, at), room - |out|);
      if t.Some? {
        TurnIsFramed(codec, d, NextPacket(input, at), room - |out|, widths);
        FramedJoins(out, t.value.out);
        RetiringIsFramed(codec, t.value.decoder, input, at + 2 + PacketLength(input, at), out + t.value.out, room, widths);
      }
    }
  }

  lemma InputIsFramed(codec: Codec, framing: Framing, d: Decoder, input: seq<Byte>, out: seq<Sample>, room: nat, widths: map<int, nat>)
    requires d.offset <= |d.carry| && |out| <= room
    requires WholeFrames(d, widths) && CodecIsWhole(codec, widths) && Framed(out)
    ensures var o := DecodeInput(codec, framing, d, input, out, room);
            Framed(o.out) && (o.ok ==> WholeFrames(o.decoder, widths))
  {
    hide TakeTurn, WholeFrames, CodecIsWhole;
    match framing
    case OpusStream => RetiringIsFramed(codec, d, input, 0, out, room, widths);
    case Unit =>
      if input != [] && TakeTurn(codec, d, input, room - |out|).Some? {
        TurnIsFramed(codec, d, input, room - |out|, widths);
        FramedJoins(out, TakeTurn(codec, d, input, room - |out|).value.out);
      }
  }

  /** All one call gives is whole interleaved frames, even when the channel count changes on the way. */
  lemma DecodeIsFramed(codec: Codec, framing: Framing, d: Decoder, input: seq<Byte>, room: nat, widths: map<int, nat>)
    requires d.offset <= |d.carry| && CodecIsWhole(codec, widths) && (d.valid ==> WholeFrames(d, widths))
    ensures var o := Decode(codec, framing, d, input, room);
            Framed(o.out) && (o.ok ==> WholeFrames(o.decoder, widths))
  {
    if d.valid {
      DrainIsFramed(d, room, widths);
      hide WholeFrames, CodecIsWhole, DecodeInput, Drained, AfterDrain;
      InputOrNot(codec, framing, d, input, room, widths);
    }
  }

  lemma InputOrNot(codec: Codec, framing: Framing, d: Decoder, input: seq<Byte>, room: nat, widths: map<int, nat>)
    requires d.offset <= |d.carry| && CodecIsWhole(codec, widths) && d.valid
    requires Framed(Drained(d, room)) && WholeFrames(AfterDrain(d, room), widths)
    ensures var o := Decode(codec, framing, d, input, room);
            Framed(o.out) && (o.ok ==> WholeFrames(o.decoder, widths))
  {
    var out, e := Drained(d, room), AfterDrain(d, room);
    hide WholeFrames, CodecIsWhole, DecodeInput;
    if |Retained(e)| < MAX_CARRY_SAMPLES {
      InputIsFramed(codec, framing, e, input, out, room, widths);
    }
  }

  // --- runs ----------------------------------------------------------------------------------------

  datatype Call = Call(input: seq<Byte>, room: nat)

  datatype History = History(decoder: Decoder, given: seq<Sample>)

  function AfterCalls(codec: Codec, framing: Framing, h: History, calls: seq<Call>): (r: History)
    requires h.decoder.offset <= |h.decoder.carry|
    ensures r.decoder.offset <= |r.decoder.carry|
    decreases |calls|
  {
    if calls == [] then h
    else
      var o := Decode(codec, framing, h.decoder, calls[0].input, calls[0].room);
      AfterCalls(codec, framing, History(o.decoder, h.given + o.out), calls[1..])
  }

  lemma {:induction false} FailedStaysFailed(codec: Codec, framing: Framing, h: History, calls: seq<Call>)
    requires h.decoder.offset <= |h.decoder.carry| && !h.decoder.valid
    ensures AfterCalls(codec, framing, h, calls) == h
    decreases |calls|
  {
    if calls != [] {
      assert h.given + [] == h.given;
      FailedStaysFailed(codec, framing, h, calls[1..]);
    }
  }

  /** Whatever the codec answers: while the decoder is still valid, everything given followed by
      everything retained is everything converted, in order and once. */
  lemma {:induction false} RunConservesSamples(codec: Codec, framing: Framing, h: History, calls: seq<Call>)
    requires h.decoder.offset <= |h.decoder.carry|
    requires h.decoder.valid ==> Conserved(codec, h.decoder, h.given)
    ensures var r := AfterCalls(codec, framing, h, calls);
            r.decoder.valid ==> Conserved(codec, r.decoder, r.given)
    decreases |calls|
  {
    if calls != [] {
      var c := calls[0];
      if h.decoder.valid {
        DecodeConserves(codec, framing, h.decoder, c.input, c.room, h.given);
      }
      hide Conserved;
      var o := Decode(codec, framing, h.decoder, c.input, c.room);
      RunConservesSamples(codec, framing, History(o.decoder, h.given + o.out), calls[1..]);
    }
  }

  /** With a codec that yields whole frames, at most `perPacket` samples at a time: what a run gives is
      whole frames, and so is what is retained, which stays below the high-water mark plus one packet. */
  lemma {:induction false} RunIsFramed(codec: Codec, framing: Framing, h: History, calls: seq<Call>, widths: map<int, nat>, perPacket: nat)
    requires WellBehaved(codec, widths, perPacket)
    requires h.decoder.offset <= |h.decoder.carry|
    requires h.decoder.valid ==> Bounded(h.decoder, widths, perPacket)
    ensures var r := AfterCalls(codec, framing, h, calls);
            (Framed(h.given) ==> Framed(r.given)) && (r.decoder.valid ==> Bounded(r.decoder, widths, perPacket))
    decreases |calls|
  {
    if calls != [] {
      var c := calls[0];
      var o := Decode(codec, framing, h.decoder, c.input, c.room);
      assert CodecIsWhole(codec, widths);
      if h.decoder.valid {
        DecodeBounded(codec, framing, h.decoder, c.input, c.room, widths, perPacket);
        ValidIsOk(codec, framing, h.decoder, c.input, c.room);
      }
      DecodeIsFramed(codec, framing, h.decoder, c.input, c.room, widths);
      if Framed(h.given) {
        FramedJoins(h.given, o.out);
      }
      hide Bounded, WellBehaved, Framed;
      RunIsFramed(codec, framing, History(o.decoder, h.given + o.out), calls[1..], widths, perPacket);
    }
  }

  lemma ValidIsOk(codec: Codec, framing: Framing, d: Decoder, input: seq<Byte>, room: nat)
    requires d.offset <= |d.carry| && d.valid
    ensures var o := Decode(codec, framing, d, input, room); o.ok == o.decoder.valid
  {
    hide DecodeInput, DrainCount, Compacted;
    DrainMovesPrefix(d, room);
    InputValidIsOk(codec, framing, AfterDrain(d, room), input, Drained(d, room), room);
  }

  lemma InputValidIsOk(codec: Codec, framing: Framing, d: Decoder, input: seq<Byte>, out: seq<Sample>, room: nat)
    requires d.offset <= |d.carry| && |out| <= room && d.valid
    ensures var o := DecodeInput(codec, framing, d, input, out, room); o.ok == o.decoder.valid
  {
    hide TakeTurn;
    match framing
    case OpusStream => RetiringValidIsOk(codec, d, input, 0, out, room);
    case Unit =>
      if input != [] {
        TurnStaysValid(codec, d, input, room - |out|);
      }
  }

  lemma TurnStaysValid(codec: Codec, d: Decoder, packet: Packet, room: nat)
    requires d.offset <= |d.carry|
    ensures var t := TakeTurn(codec, d, packet, room); t.Some? ==> t.value.decoder.valid == d.valid
  {
    SendingAppends(codec, d, packet);
  }

  lemma {:induction false} RetiringValidIsOk(codec: Codec, d: Decoder, input: seq<Byte>, at: nat, out: seq<Sample>, room: nat)
    requires d.offset <= |d.carry| && at <= |input| && |out| <= room && d.valid
    ensures var o := RetirePackets(codec, d, input, at, out, room); o.ok == o.decoder.valid
    decreases |input| - at
  {
    hide TakeTurn, NextPacket;
    if !Desynchronised(input, at) && CanRetire(d, input, at, |out|, room) {
      var t := TakeTurn(codec, d, NextPacket(input, at), room - |out|);
      if t.Some? {
        TurnStaysValid(codec, d, NextPacket(input, at), room - |out|);
        RetiringValidIsOk(codec, t.value.decoder, input, at + 2 + PacketLength(input, at), out + t.value.out, room);
      }
    }
  }

  /** Any sequence of calls, any inputs and output sizes, with such a codec: conservation, whole frames
      and the bound together. */
  lemma RunConserves(codec: Codec, framing: Framing, h: History, calls: seq<Call>, widths: map<int, nat>, perPacket: nat)
    requires WellBehaved(codec, widths, perPacket)
    requires h.decoder.offset <= |h.decoder.carry|
    requires h.decoder.valid ==> Conserved(codec, h.decoder, h.given) && Bounded(h.decoder, widths, perPacket)
    ensures var r := AfterCalls(codec, framing, h, calls);
            && (Framed(h.given) ==> Framed(r.given))
            && (r.decoder.valid ==> Conserved(codec, r.decoder, r.given) && Bounded(r.decoder, widths, perPacket))
  {
    hide Conserved, Bounded, WellBehaved, Framed;
    RunConservesSamples(codec, framing, h, calls);
    RunIsFramed(codec, framing, h, calls, widths, perPacket);
  }

  /** Two guests that got the same packets in, however each sliced its calls and whatever the codec
      makes of them, got prefixes of one and the same stream of samples out. */
  lemma SlicingIsInvisible(codec: Codec, framing: Framing, maxChannels: nat, calls1: seq<Call>, calls2: seq<Call>)
    requires var a := AfterCalls(codec, framing, History(Fresh(maxChannels), []), calls1);
             var b := AfterCalls(codec, framing, History(Fresh(maxChannels), []), calls2);
             a.decoder.valid && b.decoder.valid && a.decoder.fed == b.decoder.fed
    ensures var a := AfterCalls(codec, framing, History(Fresh(maxChannels), []), calls1);
            var b := AfterCalls(codec, framing, History(Fresh(maxChannels), []), calls2);
            a.given + Retained(a.decoder) == b.given + Retained(b.decoder)
  {
    var start := History(Fresh(maxChannels), []);
    RunConservesSamples(codec, framing, start, calls1);
    RunConservesSamples(codec, framing, start, calls2);
  }
}

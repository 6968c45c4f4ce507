/** ajm_ffmpeg.cpp in its own form: the decoder object with its carry, and the caller's output buffer
    written in place. Every method is proved to do what the value model says. */
module AjmStream {
  import opened Wrappers
  import opened AjmDecoder

  datatype DecodeResult = DecodeResult(ok: bool, consumed: nat, produced: nat)

  class FfmpegStreamDecoder {
    const codec: Codec
    const framing: Framing
    const maxChannels: nat

    var valid: bool
    var format: Option<int>
    var channels: nat
    var sampleRate: nat
    var carry: seq<Sample>
    var carryOffset: nat
    var fed: seq<Packet>   // the codec context's own memory

    constructor (codec: Codec, framing: Framing, maxChannels: nat)
      ensures View() == Fresh(maxChannels) && this.codec == codec && this.framing == framing && InBounds()
    {
      this.codec, this.framing, this.maxChannels := codec, framing, maxChannels;
      valid, format, channels, sampleRate := true, None, 0, 0;
      carry, carryOffset, fed := [], 0, [];
    }

    function View(): Decoder
      reads this
    {
      Decoder(valid, maxChannels, format, channels, sampleRate, carry, carryOffset, fed)
    }

    predicate InBounds()
      reads this
    {
      carryOffset <= |carry|
    }

    method Invalidate()
      modifies this`valid, this`carry, this`carryOffset
      ensures View() == if old(valid) then Invalidated(old(View())) else old(View())
    {
      if !valid {
        return;
      }
      valid := false;
      carry, carryOffset := [], 0;
    }

    method CopyOut(output: array<Sample>, start: nat, count: nat)
      requires InBounds() && count <= |carry| - carryOffset && start + count <= output.Length
      modifies output
      ensures output[..start + count] == old(output[..start]) + carry[carryOffset..carryOffset + count]
      ensures output[start + count..] == old(output[start + count..])
    {
      ghost var out := carry[carryOffset..carryOffset + count];
      forall i | 0 <= i < count {
        output[start + i] := carry[carryOffset + i];
      }
      assert forall i :: 0 <= i < count ==> out[i] == carry[carryOffset + i];
    }

    /** Drops what was handed out once it is everything, or once it is half the high-water mark. */
    method Compact()
      requires InBounds()
      modifies this`carry, this`carryOffset
      ensures View() == Compacted(old(View()))
    {
      if carryOffset == |carry| {
        carry, carryOffset := [], 0;
      } else if carryOffset > MAX_CARRY_SAMPLES / 2 {
        carry := carry[carryOffset..];
        carryOffset := 0;
      }
    }

    /** Fills `output` from `start` on with as many whole interleaved frames as fit. */
    method Drain(output: array<Sample>, start: nat) returns (count: nat)
      requires InBounds() && start <= output.Length
      modifies this`carry, this`carryOffset, output
      ensures InBounds() && View() == AfterDrain(old(View()), output.Length - start)
      ensures count == |Drained(old(View()), output.Length - start)| && start + count <= output.Length
      ensures output[..start + count] == old(output[..start]) + Drained(old(View()), output.Length - start)
      ensures output[start + count..] == old(output[start + count..])
    {
      ghost var was, room := View(), output.Length - start;
      var available := |carry| - carryOffset;
      count := if available < output.Length - start then available else output.Length - start;
      if channels > 0 {
        count := RoundedDown(count, channels);
      }
      assert count == DrainCount(was, room);
      assert Drained(was, room) == carry[carryOffset..carryOffset + count];
      hide Drained, Compacted, Fitting, RoundedDown;
      CopyOut(output, start, count);
      carryOffset := carryOffset + count;
      Compact();
    }

    method ConfigureResampler(f: Frame) returns (ok: bool)
      requires InBounds()
      modifies this`format, this`channels, this`sampleRate
      ensures ok == Configured(old(View()), f).Some?
      ensures View() == if ok then Configured(old(View()), f).value else old(View())
    {
      if format == Some(f.format) {
        return true;
      }
      if f.channels == 0 || f.channels > maxChannels {
        return false;
      }
      if channels != 0 && f.channels != channels && carryOffset != |carry| {
        return false;
      }
      if !f.resamplerOpens || f.rate == 0 {
        return false;
      }
      format, channels, sampleRate := Some(f.format), f.channels, f.rate;
      return true;
    }

    method ReceiveAll(r: Received) returns (ok: bool)
      requires InBounds()
      modifies this`format, this`channels, this`sampleRate, this`carry
      ensures InBounds()
      ensures ok == ReceiveFrames(old(View()), r).Some?
      ensures ok ==> View() == ReceiveFrames(old(View()), r).value
      ensures valid == old(valid) && fed == old(fed) && carryOffset == old(carryOffset)
    {
      var i := 0;
      assert r.frames[0..] == r.frames;
      while i < |r.frames|
        invariant i <= |r.frames| && InBounds()
        invariant ReceiveFrames(View(), Received(r.frames[i..], r.ok)) == ReceiveFrames(old(View()), r)
        modifies this`format, this`channels, this`sampleRate, this`carry
      {
        assert r.frames[i..][0] == r.frames[i] && r.frames[i..][1..] == r.frames[i + 1..];
        var configured := ConfigureResampler(r.frames[i]);
        if !configured {
          return false;
        }
        carry := carry + r.frames[i].samples;
        i := i + 1;
      }
      return r.ok;
    }

    method SendPacket(packet: Packet) returns (ok: bool)
      requires InBounds()
      modifies this`format, this`channels, this`sampleRate, this`carry, this`fed
      ensures InBounds() && valid == old(valid)
      ensures ok == Send(codec, old(View()), packet).Some?
      ensures ok ==> View() == Send(codec, old(View()), packet).value
    {
      fed := fed + [packet];
      match codec(fed) {
        case Refused =>
          return false;
        case Accepted(after) =>
          ok := ReceiveAll(after);
        case Again(before, resent, after) =>
          ok := ReceiveAll(before);
          if ok && resent {
            ok := ReceiveAll(after);
          } else {
            ok := false;
          }
      }
    }

    /** Sends one packet and drains what fits behind the `written` samples already there. */
    method SendAndDrain(packet: Packet, output: array<Sample>, start: nat) returns (ok: bool, written: nat)
      requires InBounds() && start <= output.Length
      modifies this`format, this`channels, this`sampleRate, this`carry, this`carryOffset, this`fed, output
      ensures InBounds() && start <= written <= output.Length && valid == old(valid)
      ensures var t := TakeTurn(codec, old(View()), packet, output.Length - start);
              && ok == t.Some?
              && (ok ==> View() == t.value.decoder && output[..written] == old(output[..start]) + t.value.out)
    {
      hide Send, DrainCount, Compacted;
      written := start;
      ok := SendPacket(packet);
      if ok {
        var count := Drain(output, written);
        written := written + count;
      }
    }

    /** The loop over length-prefixed packets; `written` samples are already in `output`. */
    method RetireStream(input: seq<Byte>, output: array<Sample>, start: nat) returns (ok: bool, off: nat, written: nat)
      requires InBounds() && start <= output.Length && valid
      modifies this`format, this`channels, this`sampleRate, this`carry, this`carryOffset, this`fed, output
      ensures InBounds() && written <= output.Length && valid
      ensures var o := RetirePackets(codec, old(View()), input, 0, old(output[..start]), output.Length);
              && ok == o.ok
              && (ok ==> View() == o.decoder && off == o.consumed && output[..written] == o.out)
    {
      hide TakeTurn, Retained;
      ghost var was, given := View(), output[..start];
      off, written := 0, start;
      while true
        invariant InBounds() && off <= |input| && written <= output.Length && valid
        invariant RetirePackets(codec, View(), input, off, output[..written], output.Length)
               == RetirePackets(codec, was, input, 0, given, output.Length)
        modifies this`format, this`channels, this`sampleRate, this`carry, this`carryOffset, this`fed, output
        decreases |input| - off
      {
        if |input| - off < 2 {
          break;
        }
        var length := PacketLength(input, off);
        if length > MAX_PACKET_BYTES {
          return false, off, written;
        }
        if |input| - off < 2 + length {
          break;
        }
        assert |Retained(View())| == |carry| - carryOffset by { RetainedLength(View()); }
        if written >= output.Length || |carry| - carryOffset >= MAX_CARRY_SAMPLES {
          break;
        }
        var sent, filled := SendAndDrain(input[off + 2..off + 2 + length], output, written);
        if !sent {
          return false, off, written;
        }
        written := filled;
        off := off + 2 + length;
      }
      ok := true;
    }

    method SendUnit(input: seq<Byte>, output: array<Sample>, start: nat) returns (ok: bool, off: nat, written: nat)
      requires InBounds() && start <= output.Length && valid
      modifies this`format, this`channels, this`sampleRate, this`carry, this`carryOffset, this`fed, output
      ensures InBounds() && written <= output.Length && valid
      ensures var o := DecodeUnit(codec, old(View()), input, old(output[..start]), output.Length);
              && ok == o.ok
              && (ok ==> View() == o.decoder && off == o.consumed && output[..written] == o.out)
    {
      ok, off, written := true, |input|, start;
      if input != [] {
        hide TakeTurn;
        ok, written := SendAndDrain(input, output, start);
      }
    }

    /** One AJM job: the object's whole new state, what the guest is told, and what it was given. */
    method Decode(input: seq<Byte>, output: array<Sample>) returns (result: DecodeResult)
      requires InBounds()
      modifies this, output
      ensures InBounds()
      ensures var o := AjmDecoder.Decode(codec, framing, old(View()), input, output.Length);
              && result == DecodeResult(o.ok, o.consumed, |o.out|)
              && output[..|o.out|] == o.out
              && valid == o.decoder.valid
              && (valid || !old(valid) ==> View() == o.decoder)
              && (!valid ==> carry == o.decoder.carry && carryOffset == o.decoder.offset)
    {
      hide RetirePackets, DecodeUnit, AfterDrain, Drained, Retained;
      ghost var was := View();
      if !valid {
        return DecodeResult(false, 0, 0);
      }
      ghost var drained, out := AfterDrain(was, output.Length), Drained(was, output.Length);
      var written := Drain(output, 0);
      assert output[..written] == [] + out;
      assert View() == drained && drained.valid by { DrainingKeepsValid(was, output.Length); }
      assert |Retained(drained)| == |carry| - carryOffset by { RetainedLength(drained); }
      if |carry| - carryOffset >= MAX_CARRY_SAMPLES {
        return DecodeResult(true, 0, written);
      }
      assert AjmDecoder.Decode(codec, framing, was, input, output.Length)
          == DecodeInput(codec, framing, drained, input, out, output.Length);
      OutcomeShape(codec, framing, drained, input, out, output.Length);
      var ok, off;
      ghost var o := DecodeInput(codec, framing, drained, input, out, output.Length);
      assert output[..written] == out;
      match framing {
        case OpusStream =>
          assert o == RetirePackets(codec, drained, input, 0, out, output.Length);
          ok, off, written := RetireStream(input, output, written);
        case Unit =>
          assert o == DecodeUnit(codec, drained, input, out, output.Length);
          ok, off, written := SendUnit(input, output, written);
      }
      assert ok == o.ok && (ok ==> View() == o.decoder && off == o.consumed && output[..written] == o.out);
      if !ok {
        Invalidate();
        return DecodeResult(false, 0, 0);
      }
      return DecodeResult(true, off, written);
    }
  }

  lemma DrainingKeepsValid(d: Decoder, room: nat)
    requires d.offset <= |d.carry|
    ensures AfterDrain(d, room).valid == d.valid
  {
  }

  lemma {:induction false} RetiringShape(codec: Codec, d: Decoder, input: seq<Byte>, at: nat, out: seq<Sample>, room: nat)
    requires d.offset <= |d.carry| && at <= |input| && |out| <= room && d.valid
    ensures Shape(RetirePackets(codec, d, input, at, out, room))
    decreases |input| - at
  {
    hide TakeTurn;
    if !Desynchronised(input, at) && CanRetire(d, input, at, |out|, room) {
      var t := TakeTurn(codec, d, NextPacket(input, at), room - |out|);
      if t.Some? {
        TurnStaysValid(codec, d, NextPacket(input, at), room - |out|);
        RetiringShape(codec, t.value.decoder, input, at + 2 + PacketLength(input, at), out + t.value.out, room);
      }
    }
  }

  /** A failing call reports nothing, gives nothing, and leaves the decoder terminal. */
  predicate Shape(o: Outcome) {
    if o.ok then o.decoder.valid
    else o.consumed == 0 && o.out == [] && !o.decoder.valid && o.decoder.carry == [] && o.decoder.offset == 0
  }

  lemma OutcomeShape(codec: Codec, framing: Framing, d: Decoder, input: seq<Byte>, out: seq<Sample>, room: nat)
    requires d.offset <= |d.carry| && |out| <= room && d.valid
    ensures Shape(DecodeInput(codec, framing, d, input, out, room))
  {
    hide TakeTurn;
    match framing
    case OpusStream => RetiringShape(codec, d, input, 0, out, room);
    case Unit => if input != [] { TurnStaysValid(codec, d, input, room - |out|); }
  }

  lemma RetainedLength(d: Decoder)
    requires d.offset <= |d.carry|
    ensures |Retained(d)| == |d.carry| - d.offset
  {
  }
}

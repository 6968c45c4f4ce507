/** When the stream decoder succeeds and what it then gets done: every unit that is taken goes to the
    codec, and a stream whose codec behaves is played to its end. */
module AjmPlayback {
  import opened Wrappers
  import opened AjmDecoder
  import opened OpusFraming

  // --- when receiving succeeds ---------------------------------------------------------------------

  /** Frame `i` is of the format before it; or its channels are within bounds, its rate and resampler are
      usable, and it does not change the channel count over samples that are still to be handed out. */
  predicate FrameFits(d: Decoder, frames: seq<Frame>, i: nat)
    requires d.offset <= |d.carry| && i < |frames|
  {
    var f := frames[i];
    var format := if i == 0 then d.format else Some(frames[i - 1].format);
    var channels := if i == 0 then d.channels else frames[i - 1].channels;
    || format == Some(f.format)
    || (&& 1 <= f.channels <= d.maxChannels && f.resamplerOpens && f.rate > 0
        && (channels == 0 || channels == f.channels || Retained(d) + FrameSamples(frames[..i]) == []))
  }

  predicate AllFit(d: Decoder, frames: seq<Frame>)
    requires d.offset <= |d.carry|
  {
    forall i :: 0 <= i < |frames| ==> FrameFits(d, frames, i)
  }

  lemma FitsBehind(d: Decoder, e: Decoder, frames: seq<Frame>, i: nat)
    requires d.offset <= |d.carry| && e.offset <= |e.carry| && i + 1 < |frames|
    requires e.format == Some(frames[0].format) && e.channels == frames[0].channels && e.maxChannels == d.maxChannels
    requires Retained(e) == Retained(d) + frames[0].samples
    ensures FrameFits(e, frames[1..], i) <==> FrameFits(d, frames, i + 1)
  {
    var rest := frames[1..];
    assert rest[i] == frames[i + 1];
    assert i > 0 ==> rest[i - 1] == frames[i];
    assert frames[..i + 1][0] == frames[0] && frames[..i + 1][1..] == rest[..i];
    assert FrameSamples(frames[..i + 1]) == frames[0].samples + FrameSamples(rest[..i]);
    assert Retained(d) + (frames[0].samples + FrameSamples(rest[..i])) == Retained(e) + FrameSamples(rest[..i]);
  }

  lemma OneFrame(d: Decoder, f: Frame, widths: map<int, nat>)
    requires d.offset <= |d.carry| && WholeFrames(d, widths) && AllWhole([f], widths)
    ensures Configured(d, f).Some? <==> FrameFits(d, [f], 0)
    ensures Configured(d, f).Some? ==>
              var e := Configured(d, f).value.(carry := d.carry + f.samples);
              && e.format == Some(f.format) && e.channels == f.channels && e.maxChannels == d.maxChannels
              && e.offset <= |e.carry| && Retained(e) == Retained(d) + f.samples
              && WholeFrames(e, widths)
  {
    assert [f][..0] == [] && [f][0] == f && [f][1..] == [];
    assert Retained(d) + FrameSamples([]) == Retained(d);
    if Configured(d, f).Some? {
      var e := Configured(d, f).value.(carry := d.carry + f.samples);
      assert ReceiveFrames(d, Received([f], true)) == Some(e);
      ReceivingKeepsFramesWhole(d, Received([f], true), widths);
      assert Retained(e) == Retained(d) + f.samples;
    }
  }

  /** Exactly when what the codec gives can be taken over. */
  lemma {:induction false} ReceivingSucceedsIff(d: Decoder, r: Received, widths: map<int, nat>)
    requires d.offset <= |d.carry| && WholeFrames(d, widths) && AllWhole(r.frames, widths)
    ensures ReceiveFrames(d, r).Some? <==> r.ok && AllFit(d, r.frames)
    decreases |r.frames|
  {
    if r.frames != [] {
      var f, rest := r.frames[0], r.frames[1..];
      assert AllWhole([f], widths) && AllWhole(rest, widths);
      OneFrame(d, f, widths);
      FirstFits(d, r.frames);
      if Configured(d, f).Some? {
        var e := Configured(d, f).value.(carry := d.carry + f.samples);
        ReceivingSucceedsIff(e, Received(rest, r.ok), widths);
        RestFits(d, e, r.frames);
      }
    }
  }

  lemma FirstFits(d: Decoder, frames: seq<Frame>)
    requires d.offset <= |d.carry| && frames != []
    ensures FrameFits(d, frames, 0) <==> FrameFits(d, [frames[0]], 0)
  {
    assert frames[..0] == [frames[0]][..0];
  }

  lemma RestFits(d: Decoder, e: Decoder, frames: seq<Frame>)
    requires d.offset <= |d.carry| && e.offset <= |e.carry| && frames != [] && FrameFits(d, frames, 0)
    requires e.format == Some(frames[0].format) && e.channels == frames[0].channels && e.maxChannels == d.maxChannels
    requires Retained(e) == Retained(d) + frames[0].samples
    ensures AllFit(d, frames) <==> AllFit(e, frames[1..])
  {
    hide FrameFits;
    var rest := frames[1..];
    forall i: nat | i < |rest| ensures FrameFits(e, rest, i) <==> FrameFits(d, frames, i + 1) {
      FitsBehind(d, e, frames, i);
    }
    if AllFit(e, rest) {
      forall i | 0 <= i < |frames| ensures FrameFits(d, frames, i) {
        assert i > 0 ==> FrameFits(e, rest, i - 1);
      }
    }
    if AllFit(d, frames) {
      forall i | 0 <= i < |rest| ensures FrameFits(e, rest, i) {
        assert FrameFits(d, frames, i + 1);
      }
    }
  }

  // --- a codec that behaves ------------------------------------------------------------------------

  predicate Playable(f: Frame, c: nat, maxChannels: nat) {
    f.channels == c && 1 <= c <= maxChannels && f.rate > 0 && f.resamplerOpens
  }

  predicate Steady(r: Received, c: nat, maxChannels: nat) {
    r.ok && forall i :: 0 <= i < |r.frames| ==> Playable(r.frames[i], c, maxChannels)
  }

  predicate SteadyAnswer(a: Sent, c: nat, maxChannels: nat) {
    match a
    case Refused => false
    case Accepted(after) => Steady(after, c, maxChannels)
    case Again(before, resent, after) => resent && Steady(before, c, maxChannels) && Steady(after, c, maxChannels)
  }

  /** It accepts every packet, at once or when asked again, and gives whole frames of `c` channels. */
  ghost predicate SteadyCodec(codec: Codec, widths: map<int, nat>, c: nat, maxChannels: nat) {
    CodecIsWhole(codec, widths) && forall fed: seq<Packet> :: fed != [] ==> SteadyAnswer(codec(fed), c, maxChannels)
  }

  ghost predicate SteadyState(d: Decoder, widths: map<int, nat>, c: nat)
    requires d.offset <= |d.carry|
  {
    d.valid && WholeFrames(d, widths) && (d.channels == 0 || d.channels == c)
  }

  lemma SteadyFits(d: Decoder, r: Received, widths: map<int, nat>, c: nat)
    requires d.offset <= |d.carry| && SteadyState(d, widths, c) && Steady(r, c, d.maxChannels)
    ensures AllFit(d, r.frames)
  {
  }

  lemma {:induction false} SteadyChannels(d: Decoder, r: Received, widths: map<int, nat>, c: nat)
    requires d.offset <= |d.carry| && WholeFrames(d, widths) && AllWhole(r.frames, widths)
    requires d.channels == 0 || d.channels == c
    requires forall i :: 0 <= i < |r.frames| ==> r.frames[i].channels == c
    ensures var o := ReceiveFrames(d, r); o.Some? ==> o.value.channels == 0 || o.value.channels == c
    decreases |r.frames|
  {
    if r.frames != [] && Configured(d, r.frames[0]).Some? {
      var f, rest := r.frames[0], r.frames[1..];
      assert AllWhole([f], widths) && AllWhole(rest, widths);
      OneFrame(d, f, widths);
      SteadyChannels(Configured(d, f).value.(carry := d.carry + f.samples), Received(rest, r.ok), widths, c);
    }
  }

  lemma SteadyReceives(d: Decoder, r: Received, widths: map<int, nat>, c: nat)
    requires d.offset <= |d.carry| && SteadyState(d, widths, c) && AllWhole(r.frames, widths) && Steady(r, c, d.maxChannels)
    ensures var o := ReceiveFrames(d, r);
            o.Some? && SteadyState(o.value, widths, c) && o.value.maxChannels == d.maxChannels
  {
    ReceivingSucceedsIff(d, r, widths);
    SteadyFits(d, r, widths, c);
    SteadyChannels(d, r, widths, c);
    ReceivingAppends(d, r);
    ReceivingKeepsFramesWhole(d, r, widths);
  }

  lemma AnswersSteadily(codec: Codec, widths: map<int, nat>, c: nat, maxChannels: nat, fed: seq<Packet>, packet: Packet)
    requires SteadyCodec(codec, widths, c, maxChannels)
    ensures CodecIsWhole(codec, widths) && SteadyAnswer(codec(fed + [packet]), c, maxChannels)
  {
  }

  /** What such a codec is sent is always taken. */
  lemma SteadySends(codec: Codec, d: Decoder, packet: Packet, widths: map<int, nat>, c: nat)
    requires d.offset <= |d.carry| && SteadyState(d, widths, c)
    requires CodecIsWhole(codec, widths) && SteadyAnswer(codec(d.fed + [packet]), c, d.maxChannels)
    ensures var o := Send(codec, d, packet);
            o.Some? && SteadyState(o.value, widths, c) && o.value.maxChannels == d.maxChannels
  {
    var sent := d.(fed := d.fed + [packet]);
    assert SteadyState(sent, widths, c) && AnswerIsWhole(codec(sent.fed), widths);
    hide SteadyState, CodecIsWhole, AllWhole, Steady, ReceiveFrames;
    match codec(sent.fed)
    case Accepted(after) => SteadyReceives(sent, after, widths, c);
    case Again(before, resent, after) =>
      SteadyReceives(sent, before, widths, c);
      SteadyReceives(ReceiveFrames(sent, before).value, after, widths, c);
  }

  lemma SteadyDrains(d: Decoder, room: nat, widths: map<int, nat>, c: nat)
    requires d.offset <= |d.carry| && SteadyState(d, widths, c)
    ensures SteadyState(AfterDrain(d, room), widths, c) && AfterDrain(d, room).maxChannels == d.maxChannels
    ensures AfterDrain(d, room).fed == d.fed
  {
    DrainKeepsFramesWhole(d, room, widths);
    DrainMovesPrefix(d, room);
  }

  lemma SteadyTurn(codec: Codec, d: Decoder, packet: Packet, room: nat, widths: map<int, nat>, c: nat)
    requires d.offset <= |d.carry| && SteadyState(d, widths, c)
    requires CodecIsWhole(codec, widths) && SteadyAnswer(codec(d.fed + [packet]), c, d.maxChannels)
    ensures var t := TakeTurn(codec, d, packet, room);
            && t.Some? && SteadyState(t.value.decoder, widths, c)
            && t.value.decoder.maxChannels == d.maxChannels && t.value.decoder.fed == d.fed + [packet]
  {
    SteadySends(codec, d, packet, widths, c);
    SendingAppends(codec, d, packet);
    hide SteadyState, SteadyAnswer, CodecIsWhole, Send, AfterDrain, Drained;
    SteadyDrains(Send(codec, d, packet).value, room, widths, c);
  }

  // --- units ---------------------------------------------------------------------------------------

  /** A call is held back while a million samples wait to be fetched. */
  predicate HeldBack(d: Decoder, room: nat)
    requires d.offset <= |d.carry|
  {
    |Retained(AfterDrain(d, room))| >= 1048576
  }

  /** A unit that is not held back is sent to the codec whole and reported consumed whole; the call
      succeeds exactly when the codec takes it. */
  lemma UnitIsSent(codec: Codec, d: Decoder, input: seq<Byte>, room: nat)
    requires d.offset <= |d.carry| && d.valid
    ensures var o := Decode(codec, Unit, d, input, room);
            if input == [] || HeldBack(d, room) then o.ok && o.consumed == 0 && o.decoder.fed == d.fed
            else
              && (o.ok <==> Send(codec, AfterDrain(d, room), input).Some?)
              && (o.ok ==> o.consumed == |input| && o.decoder.fed == d.fed + [input])
  {
    DrainMovesPrefix(d, room);
    var e := AfterDrain(d, room);
    if input != [] && !HeldBack(d, room) && Send(codec, e, input).Some? {
      SendingAppends(codec, e, input);
      DrainMovesPrefix(Send(codec, e, input).value, room - |Drained(d, room)|);
    }
  }

  function Reported(input: seq<Byte>, consumed: nat): seq<Packet>
    requires consumed <= |input|
  {
    if consumed > 0 then [input[..consumed]] else []
  }

  lemma ReportedIsSent(codec: Codec, d: Decoder, input: seq<Byte>, room: nat)
    requires d.offset <= |d.carry| && d.valid
    ensures var o := Decode(codec, Unit, d, input, room);
            o.ok == o.decoder.valid && (o.ok ==> o.decoder.fed == d.fed + Reported(input, o.consumed))
  {
    UnitIsSent(codec, d, input, room);
    ValidIsOk(codec, Unit, d, input, room);
    hide Decode, HeldBack, Send;
    assert input[..|input|] == input;
    assert d.fed + [] == d.fed;
  }

  /** The units a run of calls reports consumed, in order. */
  function ConsumedUnits(codec: Codec, h: History, calls: seq<Call>): seq<Packet>
    requires h.decoder.offset <= |h.decoder.carry|
    decreases |calls|
  {
    if calls == [] then []
    else
      var o := Decode(codec, Unit, h.decoder, calls[0].input, calls[0].room);
      Reported(calls[0].input, o.consumed)
      + ConsumedUnits(codec, History(o.decoder, h.given + o.out), calls[1..])
  }

  /** Over any calls, while the decoder is valid: the codec was sent exactly the units reported consumed. */
  lemma {:induction false} UnitsAreSentInOrder(codec: Codec, h: History, calls: seq<Call>)
    requires h.decoder.offset <= |h.decoder.carry|
    ensures var r := AfterCalls(codec, Unit, h, calls);
            r.decoder.valid ==> r.decoder.fed == h.decoder.fed + ConsumedUnits(codec, h, calls)
    decreases |calls|
  {
    if calls == [] {
      assert h.decoder.fed + [] == h.decoder.fed;
    } else if h.decoder.valid {
      var o := Decode(codec, Unit, h.decoder, calls[0].input, calls[0].room);
      var g := History(o.decoder, h.given + o.out);
      ReportedIsSent(codec, h.decoder, calls[0].input, calls[0].room);
      hide Decode, Reported;
      if o.ok {
        UnitsAreSentInOrder(codec, g, calls[1..]);
        PacketsAssociate(h.decoder.fed, Reported(calls[0].input, o.consumed), ConsumedUnits(codec, g, calls[1..]));
      } else {
        FailedStaysFailed(codec, Unit, g, calls[1..]);
      }
    } else {
      FailedStaysFailed(codec, Unit, h, calls);
    }
  }

  lemma PacketsAssociate(a: seq<Packet>, b: seq<Packet>, c: seq<Packet>)
    ensures a + b + c == a + (b + c)
  {
  }

  lemma SteadyUnit(codec: Codec, d: Decoder, input: seq<Byte>, room: nat, widths: map<int, nat>, c: nat)
    requires d.offset <= |d.carry| && SteadyState(d, widths, c) && SteadyCodec(codec, widths, c, d.maxChannels)
    ensures var o := Decode(codec, Unit, d, input, room);
            && o.ok && SteadyState(o.decoder, widths, c) && o.decoder.maxChannels == d.maxChannels
            && (input != [] && !HeldBack(d, room) ==> o.consumed == |input| && o.decoder.fed == d.fed + [input])
  {
    if input != [] && !HeldBack(d, room) {
      SteadyUnitTaken(codec, d, input, room, widths, c);
    } else {
      assert d.valid;
      hide SteadyState, SteadyCodec;
      UnitOutcome(codec, d, input, room);
      SteadyDrains(d, room, widths, c);
    }
  }

  lemma SteadyUnitTaken(codec: Codec, d: Decoder, input: seq<Byte>, room: nat, widths: map<int, nat>, c: nat)
    requires d.offset <= |d.carry| && SteadyState(d, widths, c) && SteadyCodec(codec, widths, c, d.maxChannels)
    requires input != [] && !HeldBack(d, room)
    ensures var o := Decode(codec, Unit, d, input, room);
            && o.ok && SteadyState(o.decoder, widths, c) && o.decoder.maxChannels == d.maxChannels
            && o.consumed == |input| && o.decoder.fed == d.fed + [input]
  {
    var e, left := AfterDrain(d, room), room - |Drained(d, room)|;
    assert d.valid;
    hide *;
    SteadyDrains(d, room, widths, c);
    AnswersSteadily(codec, widths, c, d.maxChannels, e.fed, input);
    SteadyTurn(codec, e, input, left, widths, c);
    TurnDecides(codec, d, input, room);
  }

  lemma TurnDecides(codec: Codec, d: Decoder, input: seq<Byte>, room: nat)
    requires d.offset <= |d.carry| && d.valid && input != [] && !HeldBack(d, room)
    requires TakeTurn(codec, AfterDrain(d, room), input, room - |Drained(d, room)|).Some?
    ensures var t := TakeTurn(codec, AfterDrain(d, room), input, room - |Drained(d, room)|).value;
            Decode(codec, Unit, d, input, room) == Outcome(t.decoder, true, |input|, Drained(d, room) + t.out)
  {
    hide TakeTurn, AfterDrain, Drained;
  }

  lemma UnitOutcome(codec: Codec, d: Decoder, input: seq<Byte>, room: nat)
    requires d.offset <= |d.carry| && d.valid
    ensures var out, e := Drained(d, room), AfterDrain(d, room);
            Decode(codec, Unit, d, input, room) ==
            if input == [] || HeldBack(d, room) then Outcome(e, true, 0, out)
            else
              var t := TakeTurn(codec, e, input, room - |out|);
              if t.None? then Failure(e) else Outcome(t.value.decoder, true, |input|, out + t.value.out)
  {
    hide TakeTurn, AfterDrain, Drained;
  }

  /** With a codec that behaves no sequence of unit calls ever fails, and what was given and is retained is
      what the consumed units decode to. */
  lemma {:induction false} SteadyUnitsPlay(codec: Codec, h: History, calls: seq<Call>, widths: map<int, nat>, c: nat)
    requires h.decoder.offset <= |h.decoder.carry| && SteadyState(h.decoder, widths, c)
    requires SteadyCodec(codec, widths, c, h.decoder.maxChannels) && Conserved(codec, h.decoder, h.given)
    ensures var r := AfterCalls(codec, Unit, h, calls);
            && r.decoder.valid
            && r.given + Retained(r.decoder) == Pcm(codec, h.decoder.fed + ConsumedUnits(codec, h, calls))
    decreases |calls|
  {
    UnitsAreSentInOrder(codec, h, calls);
    RunConservesSamples(codec, Unit, h, calls);
    SteadyUnitsStayValid(codec, h, calls, widths, c);
  }

  lemma {:induction false} SteadyUnitsStayValid(codec: Codec, h: History, calls: seq<Call>, widths: map<int, nat>, c: nat)
    requires h.decoder.offset <= |h.decoder.carry| && SteadyState(h.decoder, widths, c)
    requires SteadyCodec(codec, widths, c, h.decoder.maxChannels)
    ensures AfterCalls(codec, Unit, h, calls).decoder.valid
    decreases |calls|
  {
    if calls != [] {
      var o := Decode(codec, Unit, h.decoder, calls[0].input, calls[0].room);
      SteadyUnit(codec, h.decoder, calls[0].input, calls[0].room, widths, c);
      hide Decode, SteadyCodec;
      SteadyUnitsStayValid(codec, History(o.decoder, h.given + o.out), calls[1..], widths, c);
    }
  }

  // --- the length-prefixed stream ------------------------------------------------------------------

  lemma {:induction false} SteadyRetires(codec: Codec, d: Decoder, input: seq<Byte>, at: nat, out: seq<Sample>, room: nat, packets: seq<Packet>,
                                         widths: map<int, nat>, c: nat)
    requires d.offset <= |d.carry| && |out| <= room && SteadyState(d, widths, c)
    requires SteadyCodec(codec, widths, c, d.maxChannels) && Plausible(packets) && Feeds(input, at, packets)
    ensures var o := RetirePackets(codec, d, input, at, out, room);
            o.ok && SteadyState(o.decoder, widths, c) && o.decoder.maxChannels == d.maxChannels
    decreases |input| - at
  {
    hide SteadyState, SteadyCodec, SteadyAnswer, CodecIsWhole, TakeTurn, NextPacket, Prefixed;
    if at + 2 <= |input| {
      NextIsFirst(input, at, packets);
      if CanRetire(d, input, at, |out|, room) {
        var packet := NextPacket(input, at);
        AnswersSteadily(codec, widths, c, d.maxChannels, d.fed, packet);
        SteadyTurn(codec, d, packet, room - |out|, widths, c);
        var t := TakeTurn(codec, d, packet, room - |out|).value;
        SteadyRetires(codec, t.decoder, input, at + 2 + |packets[0]|, out + t.out, room, packets[1..], widths, c);
      }
    }
  }

  lemma SteadySubmit(codec: Codec, packets: seq<Packet>, g: Guest, offer: Offer, k: nat, widths: map<int, nat>, c: nat)
    requires g.decoder.offset <= |g.decoder.carry| && SteadyState(g.decoder, widths, c)
    requires SteadyCodec(codec, widths, c, g.decoder.maxChannels)
    requires Plausible(packets) && AtBoundary(packets, g, k) && g.position <= |Encoded(packets)|
    ensures var h := Submit(codec, Encoded(packets), g, offer);
            SteadyState(h.decoder, widths, c) && h.decoder.maxChannels == g.decoder.maxChannels
  {
    var d := g.decoder;
    var input := Slice(Encoded(packets), g.position, offer.bytes);
    SliceFeeds(packets, k, g.position, offer.bytes);
    SteadyDrains(d, offer.room, widths, c);
    var out, e := Drained(d, offer.room), AfterDrain(d, offer.room);
    assert d.valid;
    hide SteadyState, SteadyCodec, Slice, Drained, AfterDrain;
    if |Retained(e)| < MAX_CARRY_SAMPLES {
      SteadyRetires(codec, e, input, 0, out, offer.room, packets[k..], widths, c);
    }
  }

  /** A guest that has been fed up to a packet boundary and has everything those packets decode to, but
      what is still retained. */
  ghost predicate Playing(codec: Codec, packets: seq<Packet>, g: Guest, widths: map<int, nat>, c: nat) {
    && Plausible(packets)
    && g.decoder.offset <= |g.decoder.carry| && SteadyState(g.decoder, widths, c)
    && SteadyCodec(codec, widths, c, g.decoder.maxChannels)
    && Conserved(codec, g.decoder, g.given)
    && g.position <= |Encoded(packets)|
    && exists k: nat :: AtBoundary(packets, g, k)
  }

  lemma SubmitKeepsPlaying(codec: Codec, packets: seq<Packet>, g: Guest, offer: Offer, widths: map<int, nat>, c: nat)
    requires Playing(codec, packets, g, widths, c)
    ensures Playing(codec, packets, Submit(codec, Encoded(packets), g, offer), widths, c)
  {
    var k: nat :| AtBoundary(packets, g, k);
    SteadySubmit(codec, packets, g, offer, k, widths, c);
    var j := SubmitKeepsBoundary(codec, packets, g, offer, k);
    var input := Slice(Encoded(packets), g.position, offer.bytes);
    DecodeConserves(codec, OpusStream, g.decoder, input, offer.room, g.given);
    var h := Submit(codec, Encoded(packets), g, offer);
    assert h.decoder.valid;
    hide SteadyCodec, Slice, Decode;
    assert AtBoundary(packets, h, j);
  }

  /** With a codec that behaves the stream never fails, however it is sliced. */
  lemma {:induction false} SteadyStreamPlaysOn(codec: Codec, packets: seq<Packet>, g: Guest, offers: seq<Offer>, widths: map<int, nat>, c: nat)
    requires Playing(codec, packets, g, widths, c)
    ensures Playing(codec, packets, SubmitAll(codec, Encoded(packets), g, offers), widths, c)
    decreases |offers|
  {
    if offers != [] {
      SubmitKeepsPlaying(codec, packets, g, offers[0], widths, c);
      hide Playing, Submit;
      SteadyStreamPlaysOn(codec, packets, Submit(codec, Encoded(packets), g, offers[0]), offers[1..], widths, c);
    }
  }

  /** A length prefix above eight times 1275 bytes ends the instance, unless samples hold the call back. */
  lemma LongLengthFails(codec: Codec, d: Decoder, input: seq<Byte>, room: nat)
    requires d.offset <= |d.carry| && d.valid && !HeldBack(d, room)
    requires |input| >= 2 && input[0] as int + 256 * (input[1] as int) > 10200
    ensures var o := Decode(codec, OpusStream, d, input, room); !o.ok && !o.decoder.valid && o.consumed == 0 && o.out == []
  {
    hide AfterDrain, Drained;
  }

  /** A drain hands out the most whole frames that are there and fit. */
  lemma DrainTakesAllThatFits(d: Decoder, room: nat, k: nat)
    requires d.offset <= |d.carry| && d.channels > 0
    requires Times(k, d.channels) <= room && Times(k, d.channels) <= |Retained(d)|
    ensures Times(k, d.channels) <= |Drained(d, room)|
  {
    var n := if |Retained(d)| < room then |Retained(d)| else room;
    RoundedDownIsMultiple(n, d.channels);
    var j: nat :| RoundedDown(n, d.channels) == Times(j, d.channels);
    if j < k {
      TimesStep(j, d.channels);
      TimesMonotone(j + 1, k, d.channels);
    } else {
      TimesMonotone(k, j, d.channels);
    }
  }

  lemma {:induction false} TimesMonotone(j: nat, k: nat, c: nat)
    requires j <= k
    ensures Times(j, c) <= Times(k, c)
    decreases k
  {
    if j < k {
      TimesMonotone(j, k - 1, c);
      TimesStep(k - 1, c);
    }
  }

  // --- played to the end ---------------------------------------------------------------------------

  lemma {:induction false} PcmGrows(codec: Codec, packets: seq<Packet>, k: nat)
    requires k <= |packets|
    ensures |Pcm(codec, packets[..k])| <= |Pcm(codec, packets)|
    decreases |packets|
  {
    if k == |packets| {
      assert packets[..k] == packets;
    } else {
      var init := packets[..|packets| - 1];
      PcmGrows(codec, init, k);
      assert init[..k] == packets[..k];
    }
  }

  lemma {:induction false} EncodedPrefixEnds(packets: seq<Packet>, k: nat)
    requires Plausible(packets) && k <= |packets|
    ensures |Encoded(packets[..k])| <= |Encoded(packets)|
    ensures |Encoded(packets[..k])| == |Encoded(packets)| ==> k == |packets|
  {
    EncodedAppends(packets[..k], packets[k..]);
    assert packets[..k] + packets[k..] == packets;
    if k < |packets| {
      SomethingEncodes(packets[k..]);
    }
  }

  /** What is still to be consumed and to be given. */
  function Outstanding(codec: Codec, packets: seq<Packet>, g: Guest): int
    requires Plausible(packets)
  {
    (|Encoded(packets)| - g.position) + (|Pcm(codec, packets)| - |g.given|)
  }

  lemma PlayingIsBounded(codec: Codec, packets: seq<Packet>, g: Guest, widths: map<int, nat>, c: nat)
    requires Playing(codec, packets, g, widths, c)
    ensures |g.given| <= |Pcm(codec, packets)| && Outstanding(codec, packets, g) >= 0
  {
    var k: nat :| AtBoundary(packets, g, k);
    PcmGrows(codec, packets, k);
    assert |g.given + Retained(g.decoder)| == |Pcm(codec, packets[..k])|;
  }

  /** The whole rest of the stream on offer, and room for a frame. */
  predicate Generous(packets: seq<Packet>, offer: Offer, c: nat)
    requires Plausible(packets)
  {
    offer.bytes >= |Encoded(packets)| && offer.room > 0 && offer.room >= c
  }

  lemma DrainGivesSomething(d: Decoder, room: nat, widths: map<int, nat>, c: nat)
    requires d.offset <= |d.carry| && SteadyState(d, widths, c) && Retained(d) != [] && room > 0 && room >= c
    ensures Drained(d, room) != []
  {
    assert d.channels > 0;
    var k: nat :| |Retained(d)| == Times(k, d.channels);
    if k == 0 {
      TimesStep(0, d.channels);
    } else {
      TimesStep(k - 1, d.channels);
    }
    assert |Retained(d)| >= d.channels;
  }

  lemma GivenGrows(codec: Codec, stream: seq<Byte>, g: Guest, offer: Offer)
    requires g.decoder.offset <= |g.decoder.carry| && g.position <= |stream| && g.decoder.valid
    requires Submit(codec, stream, g, offer).decoder.valid
    ensures var h := Submit(codec, stream, g, offer);
            h.position >= g.position && |h.given| >= |g.given| + |Drained(g.decoder, offer.room)|
  {
    var input := Slice(stream, g.position, offer.bytes);
    var out, e := Drained(g.decoder, offer.room), AfterDrain(g.decoder, offer.room);
    DrainMovesPrefix(g.decoder, offer.room);
    ValidIsOk(codec, OpusStream, g.decoder, input, offer.room);
    hide Slice, Drained, AfterDrain;
    if |Retained(e)| < MAX_CARRY_SAMPLES {
      RetiringOnlyAdds(codec, e, input, 0, out, offer.room);
    }
  }

  lemma SubmitGetsOn(codec: Codec, packets: seq<Packet>, g: Guest, offer: Offer, widths: map<int, nat>, c: nat)
    requires Playing(codec, packets, g, widths, c) && Generous(packets, offer, c) && c <= 8
    requires Outstanding(codec, packets, g) > 0
    ensures Outstanding(codec, packets, Submit(codec, Encoded(packets), g, offer)) < Outstanding(codec, packets, g)
  {
    var k: nat :| AtBoundary(packets, g, k);
    var h := Submit(codec, Encoded(packets), g, offer);
    SubmitKeepsPlaying(codec, packets, g, offer, widths, c);
    GivenGrows(codec, Encoded(packets), g, offer);
    EncodedPrefixEnds(packets, k);
    assert g.decoder.channels <= c;
    if k < |packets| {
      NextFits(packets, k);
      SubmitMakesProgress(codec, packets, g, offer, k);
    } else {
      assert packets[..k] == packets;
      assert Retained(g.decoder) != [] by {
        assert g.given + Retained(g.decoder) == Pcm(codec, packets);
      }
      DrainGivesSomething(g.decoder, offer.room, widths, c);
    }
  }

  lemma NextFits(packets: seq<Packet>, k: nat)
    requires Plausible(packets) && k < |packets|
    ensures 2 + |packets[k]| <= |Encoded(packets)|
  {
    EncodedAppends(packets[..k], packets[k..]);
    assert packets[..k] + packets[k..] == packets && packets[k..][0] == packets[k];
  }

  /** A guest that keeps offering the rest of the stream, with room for a frame each time, has it played
      to the end: every byte consumed and every sample given, after no more offers than there are bytes
      and samples. */
  lemma {:induction false} WholeStreamIsPlayed(codec: Codec, packets: seq<Packet>, g: Guest, offers: seq<Offer>, widths: map<int, nat>, c: nat)
    requires Playing(codec, packets, g, widths, c) && c <= 8
    requires forall i :: 0 <= i < |offers| ==> Generous(packets, offers[i], c)
    requires |offers| >= Outstanding(codec, packets, g)
    ensures var h := SubmitAll(codec, Encoded(packets), g, offers);
            h.position == |Encoded(packets)| && h.given == Pcm(codec, packets) && h.decoder.valid
    decreases |offers|
  {
    PlayingIsBounded(codec, packets, g, widths, c);
    if Outstanding(codec, packets, g) > 0 {
      var h := Submit(codec, Encoded(packets), g, offers[0]);
      SubmitGetsOn(codec, packets, g, offers[0], widths, c);
      SubmitKeepsPlaying(codec, packets, g, offers[0], widths, c);
      hide Playing, Submit, Generous, Outstanding;
      WholeStreamIsPlayed(codec, packets, h, offers[1..], widths, c);
    } else if offers != [] {
      var h := Submit(codec, Encoded(packets), g, offers[0]);
      SubmitKeepsPlaying(codec, packets, g, offers[0], widths, c);
      PlayingIsBounded(codec, packets, h, widths, c);
      GivenGrows(codec, Encoded(packets), g, offers[0]);
      WholeStreamIsPlayed(codec, packets, h, offers[1..], widths, c);
    } else {
      NothingOutstanding(codec, packets, g, widths, c);
    }
  }

  lemma NothingOutstanding(codec: Codec, packets: seq<Packet>, g: Guest, widths: map<int, nat>, c: nat)
    requires Playing(codec, packets, g, widths, c) && Outstanding(codec, packets, g) == 0
    ensures g.position == |Encoded(packets)| && g.given == Pcm(codec, packets) && g.decoder.valid
  {
    PlayingIsBounded(codec, packets, g, widths, c);
    var k: nat :| AtBoundary(packets, g, k);
    EncodedPrefixEnds(packets, k);
    assert packets[..k] == packets;
    assert |g.given + Retained(g.decoder)| == |Pcm(codec, packets)|;
    assert Retained(g.decoder) == [];
    assert g.given + [] == g.given;
  }

  /** From the start of a stream. */
  lemma FreshPlays(codec: Codec, packets: seq<Packet>, maxChannels: nat, widths: map<int, nat>, c: nat)
    requires Plausible(packets) && SteadyCodec(codec, widths, c, maxChannels)
    ensures Playing(codec, packets, Guest(AjmDecoder.Fresh(maxChannels), 0, []), widths, c)
  {
    var g := Guest(AjmDecoder.Fresh(maxChannels), 0, []);
    assert packets[..0] == [];
    assert AtBoundary(packets, g, 0);
  }
}

/** The length-prefixed Opus stream as the guest feeds it: it slices the stream as it likes, and
    re-submits from the offset the decoder reported. Every packet is decoded exactly once, in order. */
module OpusFraming {
  import opened AjmDecoder

  /** No packet is longer than the decoder accepts. */
  predicate Plausible(packets: seq<Packet>) {
    forall i :: 0 <= i < |packets| ==> |packets[i]| <= MAX_PACKET_BYTES
  }

  function Prefixed(packet: Packet): (bytes: seq<Byte>)
    requires |packet| <= MAX_PACKET_BYTES
    ensures |bytes| == 2 + |packet| && PacketLength(bytes, 0) == |packet| && bytes[2..] == packet
  {
    [|packet| % 256, |packet| / 256] + packet
  }

  function Encoded(packets: seq<Packet>): seq<Byte>
    requires Plausible(packets)
  {
    if packets == [] then [] else Prefixed(packets[0]) + Encoded(packets[1..])
  }

  lemma {:induction false} EncodedAppends(a: seq<Packet>, b: seq<Packet>)
    requires Plausible(a) && Plausible(b)
    ensures Plausible(a + b) && Encoded(a + b) == Encoded(a) + Encoded(b)
  {
    if a == [] {
      assert a + b == b;
    } else {
      EncodedAppends(a[1..], b);
      assert (a + b)[0] == a[0] && (a + b)[1..] == a[1..] + b;
      assert Prefixed(a[0]) + (Encoded(a[1..]) + Encoded(b)) == Prefixed(a[0]) + Encoded(a[1..]) + Encoded(b);
    }
  }

  /** The input from `at` on is a prefix of what the guest has still to feed. */
  predicate Feeds(input: seq<Byte>, at: nat, packets: seq<Packet>)
    requires Plausible(packets)
  {
    at <= |input| && input[at..] <= Encoded(packets)
  }

  lemma NextIsFirst(input: seq<Byte>, at: nat, packets: seq<Packet>)
    requires Plausible(packets) && Feeds(input, at, packets) && at + 2 <= |input|
    ensures packets != [] && PacketLength(input, at) == |packets[0]|
    ensures at + 2 + |packets[0]| <= |input| ==>
              NextPacket(input, at) == packets[0] && Feeds(input, at + 2 + |packets[0]|, packets[1..])
  {
    var rest := input[at..];
    var first := Prefixed(packets[0]);
    assert rest == Encoded(packets)[..|rest|];
    assert Encoded(packets) == first + Encoded(packets[1..]);
    assert input[at] == rest[0] == first[0] && input[at + 1] == rest[1] == first[1];
    assert PacketLength(input, at) == PacketLength(first, 0);
    if at + 2 + |packets[0]| <= |input| {
      assert rest[..|first|] == first;
      assert NextPacket(input, at) == rest[2..|first|] == first[2..|first|];
      assert input[at + |first|..] == rest[|first|..] == (first + Encoded(packets[1..]))[|first|..|rest|];
      assert Encoded(packets[1..]) == (first + Encoded(packets[1..]))[|first|..];
    }
  }

  /** Within one call: what is consumed ends on a packet boundary, and exactly the packets up to it
      were sent. No plausible stream is ever taken for a desynchronised one. */
  lemma {:induction false} RetiresWholePackets(codec: Codec, d: Decoder, input: seq<Byte>, at: nat, out: seq<Sample>, room: nat, packets: seq<Packet>)
    returns (k: nat)
    requires d.offset <= |d.carry| && |out| <= room && d.valid
    requires Plausible(packets) && Feeds(input, at, packets)
    ensures k <= |packets| && Plausible(packets[..k])
    ensures var o := RetirePackets(codec, d, input, at, out, room);
            o.ok ==> o.consumed == at + |Encoded(packets[..k])| && o.decoder.fed == d.fed + packets[..k]
    ensures CanRetire(d, input, at, |out|, room) && RetirePackets(codec, d, input, at, out, room).ok ==> k > 0
    decreases |input| - at
  {
    hide TakeTurn, NextPacket, Prefixed;
    k := 0;
    assert d.fed + packets[..0] == d.fed;
    if at + 2 <= |input| {
      NextIsFirst(input, at, packets);
      if CanRetire(d, input, at, |out|, room) {
        var t := TakeTurn(codec, d, NextPacket(input, at), room - |out|);
        if t.Some? {
          TurnFeeds(codec, d, NextPacket(input, at), room - |out|);
          var j := RetiresWholePackets(codec, t.value.decoder, input, at + 2 + |packets[0]|, out + t.value.out, room, packets[1..]);
          k := j + 1;
          PrefixSteps(packets, j, d.fed);
        }
      }
    }
  }

  lemma PrefixSteps(packets: seq<Packet>, j: nat, fed: seq<Packet>)
    requires Plausible(packets) && packets != [] && j <= |packets| - 1
    ensures Plausible(packets[..j + 1]) && Plausible(packets[1..][..j])
    ensures |Encoded(packets[..j + 1])| == 2 + |packets[0]| + |Encoded(packets[1..][..j])|
    ensures fed + [packets[0]] + packets[1..][..j] == fed + packets[..j + 1]
  {
    assert packets[..j + 1][1..] == packets[1..][..j];
    assert packets[..j + 1] == [packets[0]] + packets[1..][..j];
  }

  lemma TurnFeeds(codec: Codec, d: Decoder, packet: Packet, room: nat)
    requires d.offset <= |d.carry| && TakeTurn(codec, d, packet, room).Some?
    ensures var e := TakeTurn(codec, d, packet, room).value.decoder;
            e.fed == d.fed + [packet] && e.valid == d.valid
  {
    SendingAppends(codec, d, packet);
  }

  // --- the guest's loop ----------------------------------------------------------------------------

  /** One submission: how much of what is left the guest offers, and how much room it has. */
  datatype Offer = Offer(bytes: nat, room: nat)

  datatype Guest = Guest(decoder: Decoder, position: nat, given: seq<Sample>)

  function Slice(stream: seq<Byte>, from: nat, bytes: nat): seq<Byte>
    requires from <= |stream|
  {
    if from + bytes <= |stream| then stream[from..from + bytes] else stream[from..]
  }

  function Submit(codec: Codec, stream: seq<Byte>, g: Guest, offer: Offer): (h: Guest)
    requires g.decoder.offset <= |g.decoder.carry| && g.position <= |stream|
    ensures h.decoder.offset <= |h.decoder.carry| && h.position <= |stream|
  {
    var o := Decode(codec, OpusStream, g.decoder, Slice(stream, g.position, offer.bytes), offer.room);
    Guest(o.decoder, g.position + o.consumed, g.given + o.out)
  }

  function SubmitAll(codec: Codec, stream: seq<Byte>, g: Guest, offers: seq<Offer>): (h: Guest)
    requires g.decoder.offset <= |g.decoder.carry| && g.position <= |stream|
    ensures h.decoder.offset <= |h.decoder.carry| && h.position <= |stream|
    decreases |offers|
  {
    if offers == [] then g else SubmitAll(codec, stream, Submit(codec, stream, g, offers[0]), offers[1..])
  }

  /** The guest stands between packet `k - 1` and packet `k`, and the first `k` were sent. */
  predicate AtBoundary(packets: seq<Packet>, g: Guest, k: nat)
    requires Plausible(packets)
  {
    k <= |packets| && g.position == |Encoded(packets[..k])| && g.decoder.fed == packets[..k]
  }

  lemma SubmitKeepsBoundary(codec: Codec, packets: seq<Packet>, g: Guest, offer: Offer, k: nat) returns (j: nat)
    requires g.decoder.offset <= |g.decoder.carry| && g.decoder.valid
    requires Plausible(packets) && AtBoundary(packets, g, k) && g.position <= |Encoded(packets)|
    ensures var h := Submit(codec, Encoded(packets), g, offer);
            h.decoder.valid ==> k <= j && AtBoundary(packets, h, j)
  {
    j := k;
    var input := Slice(Encoded(packets), g.position, offer.bytes);
    SliceFeeds(packets, k, g.position, offer.bytes);
    DrainMovesPrefix(g.decoder, offer.room);
    var out, e := Drained(g.decoder, offer.room), AfterDrain(g.decoder, offer.room);
    hide Slice, Drained, AfterDrain, Encoded, RetirePackets;
    if |Retained(e)| < MAX_CARRY_SAMPLES {
      j := RetiringKeepsBoundary(codec, e, input, out, offer.room, packets, k);
    }
  }

  lemma RetiringKeepsBoundary(codec: Codec, d: Decoder, input: seq<Byte>, out: seq<Sample>, room: nat, packets: seq<Packet>, k: nat)
    returns (j: nat)
    requires d.offset <= |d.carry| && |out| <= room && d.valid
    requires Plausible(packets) && k <= |packets| && d.fed == packets[..k] && Feeds(input, 0, packets[k..])
    ensures var o := RetirePackets(codec, d, input, 0, out, room);
            o.decoder.valid ==>
              && k <= j <= |packets|
              && o.decoder.fed == packets[..j]
              && |Encoded(packets[..k])| + o.consumed == |Encoded(packets[..j])|
  {
    j := k;
    var n := RetiresWholePackets(codec, d, input, 0, out, room, packets[k..]);
    RetiringValidIsOk(codec, d, input, 0, out, room);
    hide RetirePackets, CanRetire, Encoded;
    if RetirePackets(codec, d, input, 0, out, room).ok {
      j := k + n;
      EncodedUpTo(packets, k, n);
    }
  }

  lemma EncodedUpTo(packets: seq<Packet>, k: nat, n: nat)
    requires Plausible(packets) && k + n <= |packets|
    ensures packets[..k + n] == packets[..k] + packets[k..][..n]
    ensures |Encoded(packets[..k + n])| == |Encoded(packets[..k])| + |Encoded(packets[k..][..n])|
  {
    var a, b := packets[..k], packets[k..][..n];
    assert packets[..k + n] == a + b;
    hide Encoded;
    EncodedAppends(a, b);
  }

  lemma {:induction false} SubmitAllKeepsBoundary(codec: Codec, packets: seq<Packet>, g: Guest, offers: seq<Offer>, k: nat) returns (j: nat)
    requires g.decoder.offset <= |g.decoder.carry|
    requires Plausible(packets) && g.position <= |Encoded(packets)|
    requires g.decoder.valid ==> AtBoundary(packets, g, k) && Conserved(codec, g.decoder, g.given)
    ensures var h := SubmitAll(codec, Encoded(packets), g, offers);
            h.decoder.valid ==> AtBoundary(packets, h, j) && Conserved(codec, h.decoder, h.given)
    decreases |offers|
  {
    j := k;
    if offers != [] {
      var stream := Encoded(packets);
      var h := Submit(codec, stream, g, offers[0]);
      var n := k;
      if g.decoder.valid {
        n := SubmitKeepsBoundary(codec, packets, g, offers[0], k);
        DecodeConserves(codec, OpusStream, g.decoder, Slice(stream, g.position, offers[0].bytes), offers[0].room, g.given);
      }
      j := SubmitAllKeepsBoundary(codec, packets, h, offers[1..], n);
    }
  }

  /** For any stream of plausible packets, any slicing and any output sizes, as long as the codec does
      not fail: the reported offset is always a packet boundary, the packets before it are exactly the
      packets sent, each once and in order, and the samples given plus those retained are exactly what
      those packets decode to. */
  lemma EveryPacketExactlyOnce(codec: Codec, maxChannels: nat, packets: seq<Packet>, offers: seq<Offer>)
    requires Plausible(packets)
    ensures var g := SubmitAll(codec, Encoded(packets), Guest(Fresh(maxChannels), 0, []), offers);
            g.decoder.valid ==>
              exists k: nat :: AtBoundary(packets, g, k) && g.given + Retained(g.decoder) == Pcm(codec, packets[..k])
  {
    var start := Guest(Fresh(maxChannels), 0, []);
    assert packets[..0] == [];
    var k := SubmitAllKeepsBoundary(codec, packets, start, offers, 0);
    var g := SubmitAll(codec, Encoded(packets), start, offers);
    if g.decoder.valid {
      assert AtBoundary(packets, g, k);
    }
  }

  /** A guest that offers the whole next packet and has room for a sample always gets on, unless it has
      less room than one interleaved frame while the carry is at its mark, or the codec fails. */
  lemma SubmitMakesProgress(codec: Codec, packets: seq<Packet>, g: Guest, offer: Offer, k: nat)
    requires g.decoder.offset <= |g.decoder.carry| && g.decoder.valid && g.decoder.channels <= 8
    requires Plausible(packets) && AtBoundary(packets, g, k) && k < |packets| && g.position <= |Encoded(packets)|
    requires offer.bytes >= 2 + |packets[k]| && offer.room > 0
    requires offer.room >= g.decoder.channels || |Retained(g.decoder)| < MAX_CARRY_SAMPLES
    ensures var h := Submit(codec, Encoded(packets), g, offer);
            h.decoder.valid ==> h.position > g.position || |h.given| > |g.given|
  {
    hide RetirePackets, Prefixed, NextPacket, PacketLength;
    var input := Slice(Encoded(packets), g.position, offer.bytes);
    var d := g.decoder;
    SliceFeeds(packets, k, g.position, offer.bytes);
    DrainMovesPrefix(d, offer.room);
    var out, e := Drained(d, offer.room), AfterDrain(d, offer.room);
    if out == [] {
      EmptyDrain(d, offer.room);
      var n := RetiresWholePackets(codec, e, input, 0, out, offer.room, packets[k..]);
      NextIsFirst(input, 0, packets[k..]);
      RetiringValidIsOk(codec, e, input, 0, out, offer.room);
      if RetirePackets(codec, e, input, 0, out, offer.room).ok {
        SomethingEncodes(packets[k..][..n]);
      }
    } else if |Retained(e)| < MAX_CARRY_SAMPLES {
      RetiringOnlyAdds(codec, e, input, 0, out, offer.room);
      RetiringValidIsOk(codec, e, input, 0, out, offer.room);
    }
  }

  lemma SomethingEncodes(packets: seq<Packet>)
    requires Plausible(packets) && packets != []
    ensures Encoded(packets) != []
  {
  }

  lemma SliceFeeds(packets: seq<Packet>, k: nat, position: nat, bytes: nat)
    requires Plausible(packets) && k <= |packets| && position == |Encoded(packets[..k])| <= |Encoded(packets)|
    ensures Feeds(Slice(Encoded(packets), position, bytes), 0, packets[k..])
    ensures k < |packets| && bytes >= 2 + |packets[k]| ==> |Slice(Encoded(packets), position, bytes)| >= 2 + |packets[k]|
  {
    var stream := Encoded(packets);
    var input := Slice(stream, position, bytes);
    var a, b := packets[..k], packets[k..];
    assert a + b == packets;
    assert k < |packets| ==> |Encoded(b)| >= 2 + |b[0]|;
    hide Encoded, Prefixed;
    EncodedAppends(a, b);
    assert stream[position..] == Encoded(b);
    assert input[0..] == input;
    assert input == if bytes <= |Encoded(b)| then Encoded(b)[..bytes] else Encoded(b);
  }

  /** Nothing drains only when nothing is retained or a frame does not fit. */
  lemma EmptyDrain(d: Decoder, room: nat)
    requires d.offset <= |d.carry| && Drained(d, room) == [] && room > 0 && d.channels <= 8
    requires room >= d.channels || |Retained(d)| < MAX_CARRY_SAMPLES
    ensures |Retained(AfterDrain(d, room))| < MAX_CARRY_SAMPLES
  {
    DrainMovesPrefix(d, room);
  }

  lemma {:induction false} RetiringOnlyAdds(codec: Codec, d: Decoder, input: seq<Byte>, at: nat, out: seq<Sample>, room: nat)
    requires d.offset <= |d.carry| && at <= |input| && |out| <= room
    ensures var o := RetirePackets(codec, d, input, at, out, room); o.ok ==> |o.out| >= |out|
    decreases |input| - at
  {
    hide TakeTurn, NextPacket, Retained;
    if !Desynchronised(input, at) && CanRetire(d, input, at, |out|, room) {
      var t := TakeTurn(codec, d, NextPacket(input, at), room - |out|);
      if t.Some? {
        RetiringOnlyAdds(codec, t.value.decoder, input, at + 2 + PacketLength(input, at), out + t.value.out, room);
      }
    }
  }
}

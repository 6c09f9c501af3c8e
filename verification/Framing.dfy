/** The two packet framings: pings over an agent connection, and WireGuard packets over a websocket. */
module Framing {
  import opened Prelude
  import opened Streams

  // ---------------------------------------------------------------------------
  // Big-endian lengths
  // ---------------------------------------------------------------------------

  /** The low 16 bits. */
  function U16(n: nat): (b: Bytes)
    ensures |b| == 2
  {
    [(n / 256) % 256, n % 256]
  }

  function FromU16(b: Bytes): (n: nat)
    requires |b| == 2
    ensures n < 65536
  {
    var hi: int, lo: int := b[0], b[1];
    hi * 256 + lo
  }

  /** The low 32 bits. */
  function U32(n: nat): (b: Bytes)
    ensures |b| == 4
  {
    U16((n / 65536) % 65536) + U16(n % 65536)
  }

  function FromU32(b: Bytes): (n: nat)
    requires |b| == 4
    ensures n < 0x1_0000_0000
  {
    FromU16(b[..2]) * 65536 + FromU16(b[2..])
  }

  lemma U16RoundTrip(n: nat)
    requires n < 65536
    ensures FromU16(U16(n)) == n
  {
  }

  lemma FromU16RoundTrip(b: Bytes)
    requires |b| == 2
    ensures U16(FromU16(b)) == b
  {
    assert FromU16(b) / 256 == b[0] && FromU16(b) % 256 == b[1];
  }

  lemma Halves(a: Bytes, b: Bytes)
    requires |a| == 2
    ensures (a + b)[..2] == a && (a + b)[2..] == b
  {
  }

  lemma U32RoundTrip(n: nat)
    requires n < 0x1_0000_0000
    ensures FromU32(U32(n)) == n
  {
    var hi, lo := n / 65536, n % 65536;
    assert hi % 65536 == hi;
    Halves(U16(hi), U16(lo));
    U16RoundTrip(hi);
    U16RoundTrip(lo);
  }

  lemma FromU32RoundTrip(b: Bytes)
    requires |b| == 4
    ensures U32(FromU32(b)) == b
  {
    var hi, lo := FromU16(b[..2]), FromU16(b[2..]);
    assert FromU32(b) / 65536 == hi && FromU32(b) % 65536 == lo;
    FromU16RoundTrip(b[..2]);
    FromU16RoundTrip(b[2..]);
    assert b == b[..2] + b[2..];
  }

  // ---------------------------------------------------------------------------
  // Pings: a 16-byte address, a 2-byte length, the message (agent/client.go, agent/server/session.go)
  // ---------------------------------------------------------------------------

  datatype Ping = Ping(addr: Bytes, payload: Bytes)

  const PING_LIMIT := 1500

  predicate PingBelow(limit: nat, m: Ping) {
    |m.addr| == 16 && |m.payload| < limit
  }

  function EncodePing(m: Ping): (s: Bytes) {
    m.addr + U16(|m.payload|) + m.payload
  }

  /** One message from the front of a stream; a length of `limit` or more is refused. */
  function ParsePing(limit: nat, s: Bytes): (r: Parsed<Ping>) {
    if |s| < 18 then Short
    else
      var n := FromU16(s[16..18]);
      if n >= limit then Bad
      else if |s| < 18 + n then Short
      else Frame(Ping(s[..16], s[18..18 + n]), s[18 + n..])
  }

  lemma EncodedPingParts(m: Ping, t: Bytes)
    requires PingBelow(65536, m)
    ensures var s := EncodePing(m) + t;
            && |EncodePing(m)| == 18 + |m.payload|
            && s[..16] == m.addr && FromU16(s[16..18]) == |m.payload|
            && s[18..18 + |m.payload|] == m.payload && s[18 + |m.payload|..] == t
  {
    U16RoundTrip(|m.payload|);
    var s := EncodePing(m) + t;
    assert s[16..18] == U16(|m.payload|);
  }

  /** On the wire: the address, the high byte of the length, the low one, and the message. */
  lemma PingOnWire(m: Ping)
    requires PingBelow(65536, m)
    ensures var s := EncodePing(m);
            && |s| == 18 + |m.payload| && s[..16] == m.addr && 256 * s[16] as int + s[17] as int == |m.payload|
            && s[18..] == m.payload
  {
    assert |m.payload| == 256 * (|m.payload| / 256) + |m.payload| % 256;
  }

  lemma CutPing(limit: nat, m: Ping, n: nat)
    requires limit <= 65536 && PingBelow(limit, m) && n < |EncodePing(m)|
    ensures ParsePing(limit, EncodePing(m)[..n]) == Short
  {
    EncodedPingParts(m, []);
    assert EncodePing(m) + [] == EncodePing(m);
    if n >= 18 {
      assert EncodePing(m)[..n][16..18] == EncodePing(m)[16..18];
    }
  }

  lemma ParsedPing(limit: nat, s: Bytes)
    requires ParsePing(limit, s).Frame?
    ensures var r := ParsePing(limit, s); PingBelow(limit, r.m) && s == EncodePing(r.m) + r.rest
  {
    var n := FromU16(s[16..18]);
    FromU16RoundTrip(s[16..18]);
    assert s == s[..16] + s[16..18] + s[18..18 + n] + s[18 + n..];
  }

  function PingParser(limit: nat): (p: Bytes -> Parsed<Ping>) {
    (s: Bytes) => ParsePing(limit, s)
  }

  function PingOk(limit: nat): (p: Ping -> bool) {
    (m: Ping) => PingBelow(limit, m)
  }

  /** For every limit that a 2-byte length can express, reading pings inverts writing them. */
  lemma PingCodec(limit: nat)
    requires 0 < limit <= 65536
    ensures IsCodec(EncodePing, PingParser(limit), PingOk(limit))
  {
    forall m, t: Bytes | PingBelow(limit, m) ensures ParsePing(limit, EncodePing(m) + t) == Frame(m, t) {
      EncodedPingParts(m, t);
    }
    forall s | ParsePing(limit, s).Frame?
      ensures PingBelow(limit, ParsePing(limit, s).m)
              && s == EncodePing(ParsePing(limit, s).m) + ParsePing(limit, s).rest
    {
      ParsedPing(limit, s);
    }
    forall m, n | PingBelow(limit, m) && 0 <= n < |EncodePing(m)|
      ensures ParsePing(limit, EncodePing(m)[..n]) == Short
    {
      CutPing(limit, m, n);
    }
  }

  /** A connection that carries `room` more bytes before it fails. */
  class Link {
    var sent: Bytes
    var room: nat

    constructor (room: nat)
      ensures sent == [] && this.room == room
    {
      sent, this.room := [], room;
    }

    method Write(b: Bytes) returns (ok: bool)
      modifies this
      ensures ok <==> |b| <= old(room)
      ensures sent == old(sent) + if ok then b else b[..old(room)]
      ensures room == if ok then old(room) - |b| else 0
    {
      ok := |b| <= room;
      if ok {
        sent, room := sent + b, room - |b|;
      } else {
        sent, room := sent + b[..room], 0;
      }
    }
  }

  /** What a pinger has put on its connection: whole messages, and a cut one only if it broke. */
  ghost predicate PingTrace(sent: Bytes, accepted: seq<Ping>, broken: bool) {
    && (forall m :: m in accepted ==> PingBelow(PING_LIMIT, m))
    && exists m, n ::
         && PingBelow(PING_LIMIT, m) && 0 <= n < |EncodePing(m)| && (!broken ==> n == 0)
         && sent == EncodeAll(EncodePing, accepted) + EncodePing(m)[..n]
  }

  class Pinger {
    const link: Link
    var broken: bool
    ghost var accepted: seq<Ping>

    ghost predicate Valid()
      reads this, link
    {
      PingTrace(link.sent, accepted, broken)
    }

    constructor (link: Link)
      requires link.sent == []
      ensures Valid() && !broken && accepted == [] && this.link == link
    {
      this.link := link;
      broken, accepted := false, [];
      new;
      var m := Ping(seq(16, i => 0), []);
      assert PingBelow(PING_LIMIT, m) && EncodePing(m)[..0] == [];
      assert link.sent == EncodeAll(EncodePing, []) + EncodePing(m)[..0];
    }

    /** A message too large or without an IPv6 address is refused and leaves the connection as it was. */
    method WriteTo(buf: Bytes, addr: Option<Bytes>) returns (ok: bool)
      requires Valid() && (addr.Some? ==> |addr.value| == 16)
      modifies this`broken, this`accepted, link
      ensures Valid()
      ensures old(broken) ==> !ok && broken && link.sent == old(link.sent)
      ensures |buf| >= PING_LIMIT || addr.None? ==> !ok && broken == old(broken) && link.sent == old(link.sent)
      ensures !old(broken) && |buf| < PING_LIMIT && addr.Some? ==>
                (ok <==> 18 + |buf| <= old(link.room)) && broken == !ok
      ensures accepted == if ok then old(accepted) + [Ping(addr.value, buf)] else old(accepted)
    {
      if broken || |buf| >= PING_LIMIT || addr.None? {
        return false;
      }
      ghost var m := Ping(addr.value, buf);
      ghost var before := link.sent;
      TraceWhole(link.sent, accepted);
      ok := link.Write(addr.value);
      if !ok {
        broken := true;
        assert link.sent == before + EncodePing(m)[..old(link.room)];
        TraceCut(before, accepted, m, old(link.room));
        return;
      }
      ok := link.Write(U16(|buf|));
      if !ok {
        broken := true;
        assert link.sent == before + EncodePing(m)[..old(link.room)];
        TraceCut(before, accepted, m, old(link.room));
        return;
      }
      ok := link.Write(buf);
      if !ok {
        broken := true;
        assert link.sent == before + EncodePing(m)[..old(link.room)];
        TraceCut(before, accepted, m, old(link.room));
        return;
      }
      assert link.sent == before + EncodePing(m);
      TraceMore(before, accepted, m);
      accepted := accepted + [m];
    }
  }

  lemma TraceWhole(sent: Bytes, accepted: seq<Ping>)
    requires PingTrace(sent, accepted, false)
    ensures sent == EncodeAll(EncodePing, accepted)
  {
  }

  lemma TraceCut(sent: Bytes, accepted: seq<Ping>, m: Ping, n: nat)
    requires PingTrace(sent, accepted, false) && PingBelow(PING_LIMIT, m) && n < |EncodePing(m)|
    ensures PingTrace(sent + EncodePing(m)[..n], accepted, true)
  {
    TraceWhole(sent, accepted);
  }

  lemma TraceMore(sent: Bytes, accepted: seq<Ping>, m: Ping)
    requires PingTrace(sent, accepted, false) && PingBelow(PING_LIMIT, m)
    ensures PingTrace(sent + EncodePing(m), accepted + [m], false)
  {
    TraceWhole(sent, accepted);
    EncodeAllAppend(EncodePing, accepted, [m]);
    assert EncodeAll(EncodePing, [m]) == EncodePing(m) + EncodeAll(EncodePing, []);
    assert sent + EncodePing(m) == EncodeAll(EncodePing, accepted + [m]) + EncodePing(m)[..0];
  }

  /** The agent reads exactly the messages accepted, never trips its length guard, and loses at most the cut one. */
  lemma AgentReadsWhatWasAccepted(sent: Bytes, accepted: seq<Ping>, broken: bool)
    requires PingTrace(sent, accepted, broken)
    ensures IsCodec(EncodePing, PingParser(PING_LIMIT), PingOk(PING_LIMIT))
    ensures var d := Decode(PingParser(PING_LIMIT), sent); d.messages == accepted && !d.bad
  {
    PingCodec(PING_LIMIT);
    var m, n :| PingBelow(PING_LIMIT, m) && 0 <= n < |EncodePing(m)|
        && sent == EncodeAll(EncodePing, accepted) + EncodePing(m)[..n];
    CutPing(PING_LIMIT, m, n);
    DecodeInvertsEncode(EncodePing, PingParser(PING_LIMIT), PingOk(PING_LIMIT), accepted, EncodePing(m)[..n]);
  }

  /** The other way, the client accepts any length: every reply of up to a full agent buffer comes back whole. */
  lemma ClientReadsReplies(replies: seq<Ping>, n: nat)
    requires forall m :: m in replies ==> |m.addr| == 16 && |m.payload| <= 1500
    requires n <= |EncodeAll(EncodePing, replies)|
    ensures IsCodec(EncodePing, PingParser(65536), PingOk(65536))
    ensures var d := Decode(PingParser(65536), EncodeAll(EncodePing, replies)[..n]);
            !d.bad && d.messages <= replies && (n == |EncodeAll(EncodePing, replies)| ==> d.messages == replies)
  {
    PingCodec(65536);
    CutStreamDecodes(EncodePing, PingParser(65536), PingOk(65536), replies, n);
    var all := EncodeAll(EncodePing, replies);
    if n == |all| {
      assert all[..n] == all == all + [];
      DecodeInvertsEncode(EncodePing, PingParser(65536), PingOk(65536), replies, []);
    }
  }

  /** io.ReadFull into the front of a reused buffer. */
  method ReadFull(stream: Bytes, pos: nat, buf: array<Byte>, n: nat) returns (ok: bool)
    requires pos <= |stream| && n <= buf.Length
    modifies buf
    ensures ok <==> pos + n <= |stream|
    ensures ok ==> buf[..n] == stream[pos..pos + n]
  {
    for i := 0 to n
      invariant pos + i <= |stream|
      invariant buf[..i] == stream[pos..pos + i]
    {
      if pos + i == |stream| {
        return false;
      }
      buf[i] := stream[pos + i];
    }
    ok := true;
  }

  /** One round of the agent's ping6 loop, reading into buffers that are used again in the next round. */
  method ReadPing(stream: Bytes, pos: nat, v6buf: array<Byte>, lbuf: array<Byte>, pbuf: array<Byte>)
    returns (r: Parsed<Ping>)
    requires pos <= |stream| && v6buf.Length == 16 && lbuf.Length == 2 && pbuf.Length == 1500
    requires v6buf != lbuf && lbuf != pbuf && v6buf != pbuf
    modifies v6buf, lbuf, pbuf
    ensures r == ParsePing(PING_LIMIT, stream[pos..])
  {
    ghost var rest := stream[pos..];
    var ok := ReadFull(stream, pos, v6buf, 16);
    if !ok {
      return Short;
    }
    ok := ReadFull(stream, pos + 16, lbuf, 2);
    if !ok {
      return Short;
    }
    assert lbuf[..] == lbuf[..2] == rest[16..18];
    var paylen := FromU16(lbuf[..]);
    if paylen >= 1500 {
      return Bad;
    }
    ok := ReadFull(stream, pos + 18, pbuf, paylen);
    if !ok {
      return Short;
    }
    assert v6buf[..] == v6buf[..16] == rest[..16] && pbuf[..paylen] == rest[18..18 + paylen];
    r := Frame(Ping(v6buf[..], pbuf[..paylen]), stream[pos + 18 + paylen..]);
  }

  /** `sent` are the messages up to the first that the socket does not take; `stopped` tells whether there is one. */
  ghost predicate SentBy(messages: seq<Ping>, takes: nat -> bool, sent: seq<Ping>, stopped: bool) {
    && sent <= messages
    && (forall i :: 0 <= i < |sent| ==> takes(i))
    && (if stopped then |sent| < |messages| && !takes(|sent|) else sent == messages)
  }

  lemma PingsShrink()
    ensures Shrinks(PingParser(PING_LIMIT))
  {
    PingCodec(PING_LIMIT);
  }

  /** What the agent gets from decoding a stream. */
  ghost function Pings(stream: Bytes): (d: Decoded<Ping>) {
    PingsShrink();
    Decode(PingParser(PING_LIMIT), stream)
  }

  lemma PingsStep(s: Bytes)
    ensures match ParsePing(PING_LIMIT, s)
            case Short => Pings(s).messages == [] && !Pings(s).bad
            case Bad => Pings(s).messages == [] && Pings(s).bad
            case Frame(m, rest) => Pings(s).messages == [m] + Pings(rest).messages && Pings(s).bad == Pings(rest).bad
  {
    PingsShrink();
    DecodeStep(PingParser(PING_LIMIT), s);
  }

  /** What has been sent, and what is still to be decoded at `pos`, make up the whole. */
  ghost predicate PingsSoFar(stream: Bytes, pos: nat, sent: seq<Ping>) {
    && pos <= |stream|
    && Pings(stream).messages == sent + Pings(stream[pos..]).messages && Pings(stream).bad == Pings(stream[pos..]).bad
  }

  lemma OneMorePing(stream: Bytes, pos: nat, sent: seq<Ping>, r: Parsed<Ping>, next: nat)
    requires PingsSoFar(stream, pos, sent) && r == ParsePing(PING_LIMIT, stream[pos..]) && r.Frame?
             && next == |stream| - |r.rest|
    ensures pos < next <= |stream| && PingsSoFar(stream, next, sent + [r.m])
    ensures |sent| < |Pings(stream).messages| && sent <= Pings(stream).messages
  {
    PingsStep(stream[pos..]);
    assert stream[next..] == r.rest;
    Assoc(sent, [r.m], Pings(r.rest).messages);
  }

  lemma PingsStart(stream: Bytes)
    ensures PingsSoFar(stream, 0, [])
  {
    assert stream[0..] == stream;
    assert [] + Pings(stream).messages == Pings(stream).messages;
  }

  lemma PingsEnd(stream: Bytes, pos: nat, sent: seq<Ping>, r: Parsed<Ping>)
    requires PingsSoFar(stream, pos, sent) && r == ParsePing(PING_LIMIT, stream[pos..]) && !r.Frame?
    ensures sent == Pings(stream).messages && Pings(stream).bad == r.Bad?
  {
    PingsStep(stream[pos..]);
    assert sent + [] == sent;
  }

  /**
   * The agent's ping6 loop over a stream that ends; `takes(i)` tells whether the socket takes the i-th message. It
   * sends on what decoding the stream gives, up to the first message that the socket does not take.
   */
  method Ping6Loop(stream: Bytes, takes: nat -> bool) returns (sent: seq<Ping>, bad: bool, stopped: bool)
    ensures SentBy(Pings(stream).messages, takes, sent, stopped) && (bad <==> !stopped && Pings(stream).bad)
  {
    var v6buf, lbuf, pbuf := new Byte[16](_ => 0), new Byte[2](_ => 0), new Byte[1500](_ => 0);
    sent := [];
    var pos := 0;
    PingsStart(stream);
    while true
      invariant pos <= |stream| && PingsSoFar(stream, pos, sent)
      invariant forall i :: 0 <= i < |sent| ==> takes(i)
      decreases |stream| - pos
    {
      var r := ReadPing(stream, pos, v6buf, lbuf, pbuf);
      if !r.Frame? {
        PingsEnd(stream, pos, sent, r);
        return sent, r.Bad?, false;
      }
      var next := |stream| - |r.rest|;
      OneMorePing(stream, pos, sent, r, next);
      if !takes(|sent|) {
        return sent, false, true;
      }
      sent := sent + [r.m];
      pos := next;
    }
  }

  // ---------------------------------------------------------------------------
  // WireGuard packets: a 4-byte length and the packet (wg/ws.go)
  // ---------------------------------------------------------------------------

  const WG_BUFFER := 2000

  function EncodePacket(p: Bytes): (s: Bytes) {
    U32(|p|) + p
  }

  function ParsePacket(s: Bytes): (r: Parsed<Bytes>) {
    if |s| < 4 then Short
    else
      var n := FromU32(s[..4]);
      if |s| < 4 + n then Short else Frame(s[4..4 + n], s[4 + n..])
  }

  predicate PacketOk(p: Bytes) {
    |p| < 0x1_0000_0000
  }

  lemma PacketParts(p: Bytes, t: Bytes)
    requires PacketOk(p)
    ensures ParsePacket(EncodePacket(p) + t) == Frame(p, t)
  {
    var header := U32(|p|);
    U32RoundTrip(|p|);
    var s := header + p + t;
    assert s[..4] == header && s[4..4 + |p|] == p && s[4 + |p|..] == t;
  }

  /** On the wire: the four bytes of the length, the highest first, and the packet. */
  lemma PacketOnWire(p: Bytes)
    requires PacketOk(p)
    ensures var s := EncodePacket(p);
            && |s| == 4 + |p| && s[4..] == p
            && 0x100_0000 * s[0] as int + 0x1_0000 * s[1] as int + 0x100 * s[2] as int + s[3] as int == |p|
  {
    var hi, lo := |p| / 65536, |p| % 65536;
    assert hi % 65536 == hi && hi == 256 * (hi / 256) + hi % 256 && lo == 256 * (lo / 256) + lo % 256;
    assert U32(|p|) == [hi / 256, hi % 256, lo / 256, lo % 256];
  }

  lemma CutPacket(p: Bytes, n: nat)
    requires PacketOk(p) && n < |EncodePacket(p)|
    ensures ParsePacket(EncodePacket(p)[..n]) == Short
  {
    var header := U32(|p|);
    U32RoundTrip(|p|);
    if n >= 4 {
      assert (header + p)[..n][..4] == header;
    }
  }

  lemma ParsedPacket(s: Bytes)
    requires ParsePacket(s).Frame?
    ensures PacketOk(ParsePacket(s).m) && s == EncodePacket(ParsePacket(s).m) + ParsePacket(s).rest
    ensures |ParsePacket(s).rest| < |s|
  {
    var n := FromU32(s[..4]);
    FromU32RoundTrip(s[..4]);
    var p := s[4..4 + n];
    assert |p| == n && EncodePacket(p) == s[..4] + p;
    assert s == s[..4] + p + s[4 + n..];
  }

  lemma PacketCodec()
    ensures IsCodec(EncodePacket, ParsePacket, PacketOk)
  {
    forall p: Bytes, t: Bytes | PacketOk(p) ensures ParsePacket(EncodePacket(p) + t) == Frame(p, t) {
      PacketParts(p, t);
    }
    forall p: Bytes, n | PacketOk(p) && 0 <= n < |EncodePacket(p)| ensures ParsePacket(EncodePacket(p)[..n]) == Short {
      CutPacket(p, n);
    }
    forall s | ParsePacket(s).Frame?
      ensures PacketOk(ParsePacket(s).m) && s == EncodePacket(ParsePacket(s).m) + ParsePacket(s).rest
              && |ParsePacket(s).rest| < |s|
    {
      ParsedPacket(s);
    }
    assert ParsePacket([]) == Short;
  }

  /** wg2ws: one datagram, cut to the buffer, framed in place behind its length. */
  method FrameDatagram(buf: array<Byte>, datagram: Bytes) returns (frame: Bytes)
    requires buf.Length == WG_BUFFER
    modifies buf
    ensures var n := if |datagram| <= WG_BUFFER - 4 then |datagram| else WG_BUFFER - 4;
            frame == EncodePacket(datagram[..n]) && |frame| == n + 4 <= WG_BUFFER
  {
    var n := if |datagram| <= WG_BUFFER - 4 then |datagram| else WG_BUFFER - 4;
    for i := 0 to n
      invariant forall j :: 0 <= j < i ==> buf[4 + j] == datagram[j]
    {
      buf[4 + i] := datagram[i];
    }
    var header := U32(n);
    for i := 0 to 4
      invariant forall j :: 0 <= j < i ==> buf[j] == header[j]
      invariant forall j :: 0 <= j < n ==> buf[4 + j] == datagram[j]
    {
      buf[i] := header[i];
    }
    frame := buf[..n + 4];
    assert frame == header + datagram[..n];
  }

  /** read: one packet into the buffer, or into a larger one when it would not fit. */
  method ReadPacket(stream: Bytes, rbuf: array<Byte>) returns (r: Parsed<Bytes>)
    modifies rbuf
    ensures r == ParsePacket(stream)
  {
    var lbuf := new Byte[4](_ => 0);
    var ok := ReadFull(stream, 0, lbuf, 4);
    if !ok {
      return Short;
    }
    assert lbuf[..] == lbuf[..4] == stream[..4];
    var plen := FromU32(lbuf[..]);
    var buf := rbuf;
    if plen >= rbuf.Length {
      buf := new Byte[plen](_ => 0);
    }
    ok := ReadFull(stream, 4, buf, plen);
    if !ok {
      return Short;
    }
    r := Frame(buf[..plen], stream[4 + plen..]);
  }

  /** What the keepalive loop writes. */
  const KEEPALIVE: Bytes := [0, 0, 0, 0]

  /** Four zero bytes are the frame of the packet of no bytes, and of no other. */
  lemma KeepaliveIsEmptyPacket(p: Bytes)
    ensures EncodePacket(p) == KEEPALIVE <==> p == []
  {
    assert |EncodePacket(p)| == 4 + |p|;
  }

  /** `out` is an interleaving of the two sequences: what the write lock makes of two writers. */
  ghost predicate Interleaves<T>(a: seq<T>, b: seq<T>, out: seq<T>)
    decreases |out|
  {
    if out == [] then a == [] && b == []
    else
      || (a != [] && a[0] == out[0] && Interleaves(a[1..], b, out[1..]))
      || (b != [] && b[0] == out[0] && Interleaves(a, b[1..], out[1..]))
  }

  predicate Carries(p: Bytes) {
    p != []
  }

  lemma {:induction false} KeepalivesVanish(packets: seq<Bytes>, keepalives: seq<Bytes>, out: seq<Bytes>)
    requires Interleaves(packets, keepalives, out) && forall k :: k in keepalives ==> k == []
    ensures Filter(out, Carries) == Filter(packets, Carries)
    ensures forall p :: p in out ==> p in packets || p == []
    decreases |out|
  {
    if out != [] {
      if packets != [] && packets[0] == out[0] && Interleaves(packets[1..], keepalives, out[1..]) {
        KeepalivesVanish(packets[1..], keepalives, out[1..]);
      } else {
        assert keepalives[0] in keepalives;
        assert forall k :: k in keepalives[1..] ==> k in keepalives;
        KeepalivesVanish(packets, keepalives[1..], out[1..]);
      }
    }
  }

  /** However packets and keepalives are interleaved, the peer reads the packets that carry data, whole and in order. */
  lemma PeerReadsPackets(packets: seq<Bytes>, keepalives: seq<Bytes>, out: seq<Bytes>)
    requires Interleaves(packets, keepalives, out) && forall k :: k in keepalives ==> EncodePacket(k) == KEEPALIVE
    requires forall p :: p in packets ==> |p| <= WG_BUFFER - 4
    ensures IsCodec(EncodePacket, ParsePacket, PacketOk)
    ensures var d := Decode(ParsePacket, EncodeAll(EncodePacket, out));
            && d.messages == out && d.rest == [] && !d.bad
            && Filter(d.messages, Carries) == Filter(packets, Carries)
  {
    PacketCodec();
    forall k | k in keepalives ensures k == [] {
      KeepaliveIsEmptyPacket(k);
    }
    KeepalivesVanish(packets, keepalives, out);
    DecodeInvertsEncode(EncodePacket, ParsePacket, PacketOk, out, []);
    assert EncodeAll(EncodePacket, out) + [] == EncodeAll(EncodePacket, out);
  }
}

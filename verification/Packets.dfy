/** The IPv6 packets that clients, relays and servers build and check. */
module Packets {
  import opened Bytes
  import opened Addresses
  import opened Checksum
  import opened Security

  const ICMPV6: Byte := 58
  const NO_NEXT_HEADER: Byte := 59

  // --- the IPv6 header -----------------------------------------------------------------------

  function Header(plen: Word16, nxt: Byte, hlim: Byte, src: Addr, dst: Addr): (b: seq<Byte>)
    ensures |b| == 40
  {
    [0x60, 0, 0, 0] + Put16(plen) + [nxt, hlim] + Encode(src) + Encode(dst)
  }

  function PayloadLength(ip6: seq<Byte>): Word16
    requires |ip6| >= 40
  {
    Get16(ip6[4..6])
  }

  function NextHeader(ip6: seq<Byte>): Byte
    requires |ip6| >= 40
  {
    ip6[6]
  }

  function Source(ip6: seq<Byte>): Addr
    requires |ip6| >= 40
  {
    Decode(ip6[8..24])
  }

  function Destination(ip6: seq<Byte>): Addr
    requires |ip6| >= 40
  {
    Decode(ip6[24..40])
  }

  predicate WellFormed(ip6: seq<Byte>) {
    |ip6| >= 40 && ip6[0] / 16 == 6 && 40 + PayloadLength(ip6) as int <= |ip6|
  }

  /** The declared payload. */
  function Body(ip6: seq<Byte>): (b: seq<Byte>)
    requires WellFormed(ip6)
    ensures |b| == PayloadLength(ip6)
  {
    ip6[40..40 + PayloadLength(ip6) as int]
  }

  predicate IsBubble(ip6: seq<Byte>)
    requires |ip6| >= 40
  {
    PayloadLength(ip6) == 0 && NextHeader(ip6) == NO_NEXT_HEADER
  }

  lemma HeaderFields(plen: Word16, nxt: Byte, hlim: Byte, src: Addr, dst: Addr, body: seq<Byte>)
    ensures var p := Header(plen, nxt, hlim, src, dst) + body;
            && PayloadLength(p) == plen && NextHeader(p) == nxt
            && Source(p) == src && Destination(p) == dst
            && p[0] == 0x60 && p[40..] == body
            && (|body| == plen ==> WellFormed(p) && Body(p) == body)
  {
    var p := Header(plen, nxt, hlim, src, dst) + body;
    assert p[4..6] == Put16(plen) && p[8..24] == Encode(src) && p[24..40] == Encode(dst);
    Words16(plen, p[4..6]);
    AddressBytes(src, p[8..24]);
    AddressBytes(dst, p[24..40]);
  }

  // --- bubbles ---------------------------------------------------------------------------------

  function Bubble(src: Addr, dst: Addr): (b: seq<Byte>)
    ensures |b| == 40
  {
    Header(0, NO_NEXT_HEADER, 0, src, dst)
  }

  /** The nonce of an endpoint with the two low bits of its first octet cleared. */
  function BubbleToken(s: Secret, at: Endpoint): (n: seq<Byte>)
    ensures |n| == 8
  {
    var n := GetNonce(s, Zeros(4), at);
    [n[0] - n[0] % 4] + n[1..]
  }

  /** The link-local source of the bubbles sent toward `dst`. */
  function BubbleSource(s: Secret, dst: Addr): Addr {
    var n := BubbleToken(s, Embedded(dst));
    Addr(0xfe80_0000, 0, Get16(n[..2]), Get16(n[2..4]), Get32(n[4..]))
  }

  predicate CheckBubble(s: Secret, ip6: seq<Byte>)
    requires |ip6| >= 40
  {
    BubbleToken(s, Embedded(Source(ip6))) == InterfaceId(Destination(ip6))
  }

  lemma BubbleFields(src: Addr, dst: Addr)
    ensures var b := Bubble(src, dst);
            WellFormed(b) && IsBubble(b) && Source(b) == src && Destination(b) == dst && b[0] == 0x60
  {
    HeaderFields(0, NO_NEXT_HEADER, 0, src, dst, []);
    assert Bubble(src, dst) + [] == Bubble(src, dst);
  }

  lemma BubbleSourceId(s: Secret, dst: Addr)
    ensures InterfaceId(BubbleSource(s, dst)) == BubbleToken(s, Embedded(dst))
  {
    var n := BubbleToken(s, Embedded(dst));
    Words16(0, n[..2]);
    Words16(0, n[2..4]);
    Words32(0, n[4..]);
    assert n == n[..2] + n[2..4] + n[4..];
  }

  /** A bubble passes the check exactly when it answers the source we use toward its sender. */
  lemma CheckBubbleExact(s: Secret, ip6: seq<Byte>)
    requires |ip6| >= 40
    ensures CheckBubble(s, ip6)
            <==> (var a, b := Destination(ip6), BubbleSource(s, Source(ip6));
                  a.flags == b.flags && a.port == b.port && a.ip == b.ip)
  {
    BubbleSourceId(s, Source(ip6));
    if CheckBubble(s, ip6) {
      InterfaceIdInjective(Destination(ip6), BubbleSource(s, Source(ip6)));
    }
  }

  /** The checksum `icmp6_checksum` stores in a packet whose checksum field is still zero. */
  function IcmpChecksum(host: Endian, src: Addr, dst: Addr, body: seq<Byte>): (ck: seq<Byte>)
    requires |body| < 0x1_0000
    ensures |ck| == 2
  {
    Store(host, Cksum(host, PseudoHeader(src, dst, ICMPV6, |body|) + body))
  }

  // --- pings -------------------------------------------------------------------------------------

  const DST_UNREACH: Byte := 1
  const ECHO_REQUEST: Byte := 128
  const ECHO_REPLY: Byte := 129

  /** The echo request of `SendPing`. */
  function Ping(host: Endian, s: Secret, time: Word32, src: Addr, dst: Addr): (b: seq<Byte>)
    ensures |b| == 66
  {
    var h := GetPingHash(s, time, src, dst);
    Header(26, ICMPV6, 128, src, dst)
    + EchoBody(ECHO_REQUEST, IcmpChecksum(host, src, dst, EchoBody(ECHO_REQUEST, [0, 0], h)), h)
  }

  function EchoBody(kind: Byte, ck: seq<Byte>, h: seq<Byte>): (b: seq<Byte>)
    requires |ck| == 2 && |h| == 22
    ensures |b| == 26 && b[0] == kind && b[1] == 0 && b[4..] == h
  {
    [kind, 0] + ck + h
  }

  predicate CheckPing(s: Secret, now: Word32, ip6: seq<Byte>)
    requires WellFormed(ip6)
  {
    && NextHeader(ip6) == ICMPV6
    && PayloadLength(ip6) >= 26
    && var icmp6 := Body(ip6);
    if icmp6[0] == DST_UNREACH then
      var inner := icmp6[8..];
      && |inner| >= 66
      && NextHeader(inner) == ICMPV6
      && PayloadLength(inner) == 26
      && Source(inner) == Destination(ip6)
      && inner[40] == ECHO_REQUEST
      && Destination(inner) == Source(ip6)
      && inner[41] == 0
      && VerifyPingHash(s, now, Source(inner), Destination(inner), inner[44..66])
    else
      && icmp6[0] == ECHO_REPLY
      && icmp6[1] == 0
      && VerifyPingHash(s, now, Destination(ip6), Source(ip6), icmp6[4..26])
  }

  /** An echo reply from `dst` that carries back our identifier, sequence and payload. */
  predicate IsEchoReply(ip6: seq<Byte>, ping: seq<Byte>)
    requires |ping| == 66
  {
    && WellFormed(ip6) && NextHeader(ip6) == ICMPV6 && PayloadLength(ip6) >= 26
    && Source(ip6) == Destination(ping) && Destination(ip6) == Source(ping)
    && Body(ip6)[0] == ECHO_REPLY && Body(ip6)[1] == 0
    && Body(ip6)[4..26] == ping[44..]
  }

  /** A Destination Unreachable error from `dst`, with any code, that quotes our request. */
  predicate IsUnreachable(ip6: seq<Byte>, ping: seq<Byte>)
    requires |ping| == 66
  {
    && WellFormed(ip6) && NextHeader(ip6) == ICMPV6 && PayloadLength(ip6) >= 74
    && Source(ip6) == Destination(ping) && Destination(ip6) == Source(ping)
    && Body(ip6)[0] == DST_UNREACH
    && Body(ip6)[8..74] == ping
  }

  /** Both shapes of answer to our ping are accepted exactly in the 30 ticks from sending. */
  lemma PingAnswered(host: Endian, s: Secret, sent: Word32, now: Word32, src: Addr, dst: Addr, ip6: seq<Byte>)
    requires var ping := Ping(host, s, sent, src, dst); IsEchoReply(ip6, ping) || IsUnreachable(ip6, ping)
    ensures CheckPing(s, now, ip6) <==> Ticks(now, sent) < 30
  {
    PingFields(host, s, sent, src, dst);
    PingHashLifetime(s, now, sent, src, dst);
    if IsUnreachable(ip6, Ping(host, s, sent, src, dst)) {
      QuotedPing(Body(ip6)[8..], Ping(host, s, sent, src, dst));
    }
  }

  lemma PingFields(host: Endian, s: Secret, time: Word32, src: Addr, dst: Addr)
    ensures var p := Ping(host, s, time, src, dst);
            && NextHeader(p) == ICMPV6 && PayloadLength(p) == 26 && Source(p) == src && Destination(p) == dst
            && p[40] == ECHO_REQUEST && p[41] == 0 && p[44..] == GetPingHash(s, time, src, dst)
  {
    var h := GetPingHash(s, time, src, dst);
    var body := EchoBody(ECHO_REQUEST, IcmpChecksum(host, src, dst, EchoBody(ECHO_REQUEST, [0, 0], h)), h);
    HeaderFields(26, ICMPV6, 128, src, dst, body);
    var p := Ping(host, s, time, src, dst);
    assert p[40] == p[40..][0] && p[41] == p[40..][1] && p[44..] == p[40..][4..];
  }

  /** Fields are read from a quoted packet as from the packet itself. */
  lemma QuotedPing(inner: seq<Byte>, ping: seq<Byte>)
    requires |inner| >= 66 && |ping| == 66 && inner[..66] == ping
    ensures NextHeader(inner) == NextHeader(ping) && PayloadLength(inner) == PayloadLength(ping)
    ensures Source(inner) == Source(ping) && Destination(inner) == Destination(ping)
    ensures inner[40] == ping[40] && inner[41] == ping[41] && inner[44..66] == ping[44..]
  {
    assert ping == inner[0..66];
    SliceOfSlice(inner, 0, 66, 4, 6);
    SliceOfSlice(inner, 0, 66, 8, 24);
    SliceOfSlice(inner, 0, 66, 24, 40);
    assert forall k :: 44 <= k < 66 ==> inner[k] == ping[k];
  }

  lemma BodySlice(ip6: seq<Byte>, i: nat, j: nat)
    requires WellFormed(ip6) && i <= j <= PayloadLength(ip6) as int
    ensures Body(ip6)[i..j] == ip6[40 + i..40 + j]
  {
    SliceOfSlice(ip6, 40, 40 + PayloadLength(ip6) as int, i, j);
  }

  lemma PingCarries(s: Secret, now: Word32, ip6: seq<Byte>) returns (at: nat)
    requires WellFormed(ip6) && CheckPing(s, now, ip6)
    ensures at + 22 <= 40 + PayloadLength(ip6) as int && (at == 44 || at == 92)
    ensures VerifyPingHash(s, now, Destination(ip6), Source(ip6), ip6[at..at + 22])
  {
    if Body(ip6)[0] == DST_UNREACH {
      at := 92;
      BodySlice(ip6, 52, 74);
      SliceOfSlice(Body(ip6), 8, |Body(ip6)|, 44, 66);
      assert Body(ip6)[8..] == Body(ip6)[8..|Body(ip6)|];
      assert ip6[92..114] == Body(ip6)[8..][44..66];
    } else {
      at := 44;
      BodySlice(ip6, 4, 26);
    }
  }

  /** Conversely, acceptance means that the packet carries the hash of a time in the last 30 ticks
      over its own destination and source. */
  lemma PingAuthentic(s: Secret, now: Word32, ip6: seq<Byte>) returns (at: nat, sent: Word32)
    requires WellFormed(ip6) && CheckPing(s, now, ip6)
    ensures at + 22 <= 40 + PayloadLength(ip6) as int && (at == 44 || at == 92)
    ensures Ticks(now, sent) < 30
    ensures ip6[at..at + 22] == GetPingHash(s, sent, Destination(ip6), Source(ip6))
  {
    at := PingCarries(s, now, ip6);
    VerifyPingHashExact(s, now, Destination(ip6), Source(ip6), ip6[at..at + 22]);
    sent :| Ticks(now, sent) < 30 && ip6[at..at + 22] == GetPingHash(s, sent, Destination(ip6), Source(ip6));
  }
}

/** A qualification round trip: solicitation, advertisement, acceptance (section 5.2.1 of RFC 4380). */
module Qualification {
  import opened Bytes
  import opened Addresses
  import opened Checksum
  import opened Encapsulation
  import opened Packets
  import opened Security
  import opened Advertisements
  import opened Server

  lemma SolicitationReceived(nonce: seq<Byte>, from: Endpoint, destIp: Word32)
    requires |nonce| == 8
    ensures Received(from, destIp, Solicitation(nonce, false))
            == Some(Packet(from, destIp, Some(Auth(nonce, false)), NOWHERE, SolicitPacket(false)))
    ensures var ip6 := SolicitPacket(false);
            WellFormed(ip6) && IsSolicitation(ip6) && Source(ip6) == RESTRICT && Destination(ip6) == ALL_ROUTERS
  {
    var body := SolicitBody(Put16(0x7d37));
    HeaderFields(8, ICMPV6, 255, RESTRICT, ALL_ROUTERS, body);
    var ip6 := SolicitPacket(false);
    assert ip6[40] == ip6[40..][0];
    WrapRoundTrip(Some(AuthFields([], [], nonce, 0)), None, ip6);
  }

  lemma AdvertOptions(prefix: Word32, server: Word32, mtu: Word32, ck: seq<Byte>)
    requires |ck| == 2
    ensures var b := AdvertBody(prefix, server, mtu, ck);
            b[0] == 134 && b[1] == 0 && SplitOptions(b[16..]) == Some([PrefixOption(prefix, server), MtuOption(mtu)])
  {
    var p, m := PrefixOption(prefix, server), MtuOption(mtu);
    var o := AdvertBody(prefix, server, mtu, ck)[16..];
    assert o == p + m;
    assert o[..32] == p && o[32..] == m && o[1] == 4;
    assert m[..8] == m && m[8..] == [] && m[1] == 1;
    assert SplitOptions(m[8..]) == Some([]);
    assert SplitOptions(m) == Some([m] + []);
    assert [p] + ([m] + []) == [p, m];
  }

  lemma OptionFields(prefix: Word32, server: Word32, mtu: Word32)
    ensures var p, m := PrefixOption(prefix, server), MtuOption(mtu);
            && IsPrefixOption(p) && !IsMtuOption(p) && p[2] == 64 && PrefixOf(p) == (prefix, server)
            && IsMtuOption(m) && !IsPrefixOption(m) && MtuOf(m) == mtu
  {
    var p, m := PrefixOption(prefix, server), MtuOption(mtu);
    assert p[16..20] == Put32(prefix) && p[20..24] == Put32(server) && m[4..8] == Put32(mtu);
    Words32(prefix, p[16..20]);
    Words32(server, p[20..24]);
    Words32(mtu, m[4..8]);
  }

  /** The options of the server's advertisement read back as what it advertises. */
  lemma AdvertMeaning(prefix: Word32, server: Word32, mtu: Word32, prior: Word32)
    requires 1280 <= mtu <= 65535
    ensures var opts := [PrefixOption(prefix, server), MtuOption(mtu)];
            GoodOptions(opts) && LastPrefix(opts, prior) == (prefix, server) && LastMtu(opts) == mtu
  {
    OptionFields(prefix, server, mtu);
    var p, m := PrefixOption(prefix, server), MtuOption(mtu);
    var opts := [p, m];
    assert opts[1] == m && opts[..1] == [p] && [p][0] == p;
    assert GoodOption(p) && GoodOption(m);
  }

  lemma GlobalIsNotZero(ip: Word32)
    ensures IsGlobalUnicast(ip) ==> ip != 0
  {
  }

  function Solicited(nonce: seq<Byte>, at: Endpoint, destIp: Word32): Packet {
    Packet(at, destIp, Some(Auth(nonce, false)), NOWHERE, SolicitPacket(false))
  }

  function Answer(host: Endian, s: Server, nonce: seq<Byte>, at: Endpoint): Output
    requires |nonce| == 8
  {
    Udp(false, at, Wrap(Some(AuthFields([], [], nonce, 0)), Some(at),
                        Advert(host, LinkLocal(s), RESTRICT, s.prefix, s.ip, s.mtu)))
  }

  lemma SolicitationAnswered(host: Endian, s: Server, nonce: seq<Byte>, at: Endpoint, destIp: Word32, stale: seq<Byte>)
    requires |nonce| == 8 && |stale| == 8
    requires IsGlobalUnicast(at.ip) && !FromOurselves(s, at)
    ensures ProcessPacket(host, s, false, Solicited(nonce, at, destIp), stale) == Some(Answer(host, s, nonce, at))
  {
    hide SolicitPacket, Advert, Wrap, IsGlobalUnicast, Source, Destination, NextHeader, PayloadLength, FromOurselves;
    SolicitationReceived(nonce, at, destIp);
    assert IsLinkLocal(RESTRICT) && !IsCone(RESTRICT);
  }

  lemma AnswerReceived(host: Endian, s: Server, nonce: seq<Byte>, at: Endpoint, from: Endpoint, destIp: Word32)
    requires |nonce| == 8
    ensures Received(from, destIp, Answer(host, s, nonce, at).data)
            == Some(Packet(from, destIp, Some(Auth(nonce, false)), at,
                           Advert(host, LinkLocal(s), RESTRICT, s.prefix, s.ip, s.mtu)))
  {
    WrapRoundTrip(Some(AuthFields([], [], nonce, 0)), Some(at),
                  Advert(host, LinkLocal(s), RESTRICT, s.prefix, s.ip, s.mtu));
  }

  lemma AdvertRead(serverHost: Endian, clientHost: Endian, s: Server, p: Packet, prior: Word32)
    requires s.prefix != TEREDO_PREFIX_OBSOLETE && IsValidPrefix(clientHost, s.prefix)
    requires 1280 <= s.mtu <= 65535 && p.orig.ip != 0
    requires p.ip6 == Advert(serverHost, LinkLocal(s), RESTRICT, s.prefix, s.ip, s.mtu)
    ensures WellFormed(p.ip6)
    ensures ReadAdvert(clientHost, p, false, prior) == Accepted(ClientAddr(s.prefix, s.ip, 0, p.orig), s.mtu)
  {
    var ck := IcmpChecksum(serverHost, LinkLocal(s), RESTRICT, AdvertBody(s.prefix, s.ip, s.mtu, [0, 0]));
    HeaderFields(56, ICMPV6, 255, LinkLocal(s), RESTRICT, AdvertBody(s.prefix, s.ip, s.mtu, ck));
    AdvertOptions(s.prefix, s.ip, s.mtu, ck);
    AdvertMeaning(s.prefix, s.ip, s.mtu, prior);
  }

  /** Solicitation and advertisement cross the wire and qualify the client: the advertisement is
      accepted with its nonce and MTU, and yields the address that embeds the observed endpoint. */
  lemma QualificationRoundTrip(serverHost: Endian, clientHost: Endian, s: Server, nonce: seq<Byte>, at: Endpoint,
                               destIp: Word32, prior: Word32, stale: seq<Byte>)
    requires |nonce| == 8 && |stale| == 8
    requires s.prefix != TEREDO_PREFIX_OBSOLETE && IsValidPrefix(clientHost, s.prefix)
    requires 1280 <= s.mtu <= 65535
    requires IsGlobalUnicast(at.ip) && !FromOurselves(s, at)
    ensures var solicit := Received(at, s.ip, Solicitation(nonce, false));
            && solicit.Some?
            && var o := ProcessPacket(serverHost, s, false, solicit.value, stale);
            && o.Some? && o.value.Udp? && !o.value.secondary && o.value.to == at
            && var answer := Received(Endpoint(s.ip, TEREDO_PORT), destIp, o.value.data);
            && answer.Some? && WellFormed(answer.value.ip6)
            && MaintenanceAccepts(clientHost, answer.value, s.ip, nonce, prior)
            && ReadAdvert(clientHost, answer.value, false, prior) == Accepted(ClientAddr(s.prefix, s.ip, 0, at), s.mtu)
            && Embedded(ClientAddr(s.prefix, s.ip, 0, at)) == at
  {
    hide Received, ProcessPacket, ReadAdvert, Solicitation, SolicitPacket, Advert, Wrap, IsGlobalUnicast, IsValidPrefix;
    GlobalIsNotZero(at.ip);
    SolicitationReceived(nonce, at, s.ip);
    SolicitationAnswered(serverHost, s, nonce, at, s.ip, stale);
    var from := Endpoint(s.ip, TEREDO_PORT);
    AnswerReceived(serverHost, s, nonce, at, from, destIp);
    var answer := Received(from, destIp, Answer(serverHost, s, nonce, at).data).value;
    AdvertRead(serverHost, clientHost, s, answer, prior);
  }

  /** The checksum of an ICMPv6 body over its pseudo-header comes out as zero. */
  ghost predicate ChecksumHolds(host: Endian, src: Addr, dst: Addr, body: seq<Byte>)
    requires |body| < 0x1_0000
  {
    Cksum(host, PseudoHeader(src, dst, ICMPV6, |body|) + body) == 0
  }

  /** A checksum stored by a sender of one byte order is verified by a receiver of any. */
  lemma IcmpChecksumVerifies(sender: Endian, host: Endian, src: Addr, dst: Addr, a: Byte, b: Byte, rest: seq<Byte>)
    requires |rest| + 4 < 0x1_0000
    ensures ChecksumHolds(host, src, dst, [a, b] + IcmpChecksum(sender, src, dst, [a, b] + [0, 0] + rest) + rest)
  {
    var blank := [a, b] + [0, 0] + rest;
    var pseudo := PseudoHeader(src, dst, ICMPV6, |blank|);
    var ck := IcmpChecksum(sender, src, dst, blank);
    ByteOrderIndependent(pseudo + blank);
    assert ck == Store(host, Cksum(host, pseudo + blank));
    assert pseudo + blank == (pseudo + [a, b]) + [0, 0] + rest;
    assert pseudo + ([a, b] + ck + rest) == (pseudo + [a, b]) + ck + rest;
    ChecksumVerifies(host, pseudo + [a, b], rest);
  }

  /** Advertisements and pings carry valid checksums. */
  lemma ChecksumsOnTheWire(sender: Endian, host: Endian, s: Server, dst: Addr, secret: Secret, time: Word32, me: Addr)
    ensures ChecksumHolds(host, LinkLocal(s), dst, Advert(sender, LinkLocal(s), dst, s.prefix, s.ip, s.mtu)[40..])
    ensures ChecksumHolds(host, me, dst, Ping(sender, secret, time, me, dst)[40..])
  {
    var rest := Zeros(8) + Put32(2000) + PrefixOption(s.prefix, s.ip) + MtuOption(s.mtu);
    IcmpChecksumVerifies(sender, host, LinkLocal(s), dst, 134, 0, rest);
    var ck := IcmpChecksum(sender, LinkLocal(s), dst, AdvertBody(s.prefix, s.ip, s.mtu, [0, 0]));
    HeaderFields(56, ICMPV6, 255, LinkLocal(s), dst, AdvertBody(s.prefix, s.ip, s.mtu, ck));

    var h := GetPingHash(secret, time, me, dst);
    IcmpChecksumVerifies(sender, host, me, dst, ECHO_REQUEST, 0, h);
    var ck' := IcmpChecksum(sender, me, dst, EchoBody(ECHO_REQUEST, [0, 0], h));
    HeaderFields(26, ICMPV6, 128, me, dst, EchoBody(ECHO_REQUEST, ck', h));
  }

  lemma TotalOf16(x: Word16)
    ensures Total(Big, Put16(x)) == x
  {
    assert Put16(x)[2..] == [];
  }

  lemma TotalOf32(x: Word32)
    ensures Total(Big, Put32(x)) == x / 0x1_0000 + x % 0x1_0000
  {
    TotalOf16(x / 0x1_0000);
    TotalOf16(x % 0x1_0000);
    TotalConcat(Big, Put16(x / 0x1_0000), Put16(x % 0x1_0000));
  }

  lemma TotalOfAddr(a: Addr)
    ensures Total(Big, Encode(a))
            == a.prefix / 0x1_0000 + a.prefix % 0x1_0000 + a.server / 0x1_0000 + a.server % 0x1_0000
               + a.flags + a.port + a.ip / 0x1_0000 + a.ip % 0x1_0000
  {
    TotalOf32(a.prefix);
    TotalOf32(a.server);
    TotalOf32(a.ip);
    TotalConcat(Big, Put32(a.prefix) + Put32(a.server), InterfaceId(a));
    TotalConcat(Big, Put32(a.prefix), Put32(a.server));
    TotalConcat(Big, Put16(a.flags) + Put16(a.port), Put32(a.ip));
    TotalConcat(Big, Put16(a.flags), Put16(a.port));
    TotalOf16(a.flags);
    TotalOf16(a.port);
  }

  lemma TotalOfSolicit(ck: Word16)
    ensures Total(Big, SolicitBody(Put16(ck))) == 0x8500 + ck
  {
    TotalOf16(0x8500);
    TotalOf16(ck);
    TotalOf32(0);
    TotalConcat(Big, Put16(0x8500), Put16(ck));
    TotalConcat(Big, Put16(0x8500) + Put16(ck), Put32(0));
    assert SolicitBody(Put16(ck)) == Put16(0x8500) + Put16(ck) + Put32(0);
  }

  lemma TotalOfPseudo(src: Addr, dst: Addr, length: Word32)
    ensures Total(Big, PseudoHeader(src, dst, ICMPV6, length))
            == Total(Big, Encode(src)) + Total(Big, Encode(dst)) + length / 0x1_0000 + length % 0x1_0000 + 58
  {
    TotalOf32(length);
    TotalOf32(ICMPV6);
    TotalConcat(Big, Encode(src) + Encode(dst) + Put32(length), Put32(ICMPV6));
    TotalConcat(Big, Encode(src) + Encode(dst), Put32(length));
    TotalConcat(Big, Encode(src), Encode(dst));
  }

  lemma TotalOfRestrict()
    ensures Total(Big, Encode(RESTRICT)) == 0x3fe7d
  {
    hide Encode, Total;
    TotalOfAddr(RESTRICT);
    assert RESTRICT.prefix / 0x1_0000 == 0xfe80 && RESTRICT.prefix % 0x1_0000 == 0;
    assert RESTRICT.ip / 0x1_0000 == 0xffff && RESTRICT.ip % 0x1_0000 == 0xffff;
  }

  lemma TotalOfCone()
    ensures Total(Big, Encode(CONE)) == 0x26959
  {
    hide Encode, Total;
    TotalOfAddr(CONE);
    assert CONE.prefix / 0x1_0000 == 0xfe80 && CONE.prefix % 0x1_0000 == 0;
    assert CONE.ip / 0x1_0000 == 0x5245 && CONE.ip % 0x1_0000 == 0x444f;
  }

  lemma TotalOfRouters()
    ensures Total(Big, Encode(ALL_ROUTERS)) == 0xff04
  {
    hide Encode, Total;
    TotalOfAddr(ALL_ROUTERS);
    assert ALL_ROUTERS.prefix / 0x1_0000 == 0xff02 && ALL_ROUTERS.prefix % 0x1_0000 == 0;
    assert ALL_ROUTERS.ip / 0x1_0000 == 0 && ALL_ROUTERS.ip % 0x1_0000 == 2;
  }

  lemma TotalOfSolicitation(cone: bool)
    ensures var src, ck := if cone then CONE else RESTRICT, if cone then 0x125d else 0x7d37;
            Total(Big, PseudoHeader(src, ALL_ROUTERS, ICMPV6, 8) + SolicitBody(Put16(ck)))
            == if cone then 4 * 0xffff else 6 * 0xffff
  {
    hide Encode, Total, PseudoHeader, SolicitBody, Put16;
    var src := if cone then CONE else RESTRICT;
    var ck: Word16 := if cone then 0x125d else 0x7d37;
    TotalOfRestrict();
    TotalOfCone();
    TotalOfRouters();
    TotalOfSolicit(ck);
    TotalOfPseudo(src, ALL_ROUTERS, 8);
    TotalConcat(Big, PseudoHeader(src, ALL_ROUTERS, ICMPV6, 8), SolicitBody(Put16(ck)));
  }

  /** A sum that comes out as zero does so on hosts of either byte order. */
  lemma ZeroEitherWay(host: Endian, d: seq<Byte>)
    requires EndAround(Total(Big, d)) == 0xffff
    ensures Cksum(host, d) == 0
  {
    SumsSwapped(d);
  }

  /** The precomputed checksums of both solicitations verify on any host. */
  lemma SolicitationChecksum(host: Endian, cone: bool)
    ensures ChecksumHolds(host, if cone then CONE else RESTRICT, ALL_ROUTERS, SolicitPacket(cone)[40..])
  {
    var src := if cone then CONE else RESTRICT;
    var ck: Word16 := if cone then 0x125d else 0x7d37;
    var body := SolicitBody(Put16(ck));
    HeaderFields(8, ICMPV6, 255, src, ALL_ROUTERS, body);
    assert SolicitPacket(cone)[40..] == body;
    hide Encode, Total, EndAround, PseudoHeader, SolicitPacket, Cksum;
    TotalOfSolicitation(cone);
    var d := PseudoHeader(src, ALL_ROUTERS, ICMPV6, 8) + body;
    EndAroundUnique(Total(Big, d), 0xffff, if cone then 3 else 5);
    ZeroEitherWay(host, d);
  }
}

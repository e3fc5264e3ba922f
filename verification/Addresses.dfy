/** IPv6 addresses in the layout of section 4 of RFC 4380, and IPv4 address classes. */
module Addresses {
  import opened Bytes

  /** The view `union teredo_addr` gives of any IPv6 address; `port` and `ip` are obfuscated. */
  datatype Addr = Addr(prefix: Word32, server: Word32, flags: Word16, port: Word16, ip: Word32)

  /** A UDP/IPv4 endpoint. */
  datatype Endpoint = Endpoint(ip: Word32, port: Word16)

  const TEREDO_PORT: Word16 := 3544
  const TEREDO_PREFIX: Word32 := 0x2001_0000
  const TEREDO_PREFIX_OBSOLETE: Word32 := 0x3ffe_831f
  const FLAG_CONE: Word16 := 0x8000

  /** fe80::ffff:ffff:ffff */
  const RESTRICT := Addr(0xfe80_0000, 0, 0, 0xffff, 0xffff_ffff)
  /** fe80::8000:5445:5245:444f */
  const CONE := Addr(0xfe80_0000, 0, 0x8000, 0x5445, 0x5245_444f)
  /** ff02::2 */
  const ALL_ROUTERS := Addr(0xff02_0000, 0, 0, 0, 2)

  function Flip16(x: Word16): Word16 { 0xffff - x }
  function Flip32(x: Word32): Word32 { 0xffff_ffff - x }

  /** The UDP endpoint a Teredo address embeds. */
  function Embedded(a: Addr): Endpoint {
    Endpoint(Flip32(a.ip), Flip16(a.port))
  }

  /** The address of a client of `server` observed at `at`. */
  function ClientAddr(prefix: Word32, server: Word32, flags: Word16, at: Endpoint): Addr {
    Addr(prefix, server, flags, Flip16(at.port), Flip32(at.ip))
  }

  predicate IsCone(a: Addr) { a.flags / 0x8000 == 1 }
  predicate IsMulticast(a: Addr) { a.prefix / 0x100_0000 == 0xff }
  predicate IsLinkLocal(a: Addr) { a.prefix / 0x40_0000 == 0x3fa }

  predicate IsGlobalV6(a: Addr) {
    && a != Addr(0, 0, 0, 0, 0)
    && a != Addr(0, 0, 0, 0, 1)
    && !IsLinkLocal(a)
    && !IsMulticast(a)
  }

  /** Forbids the same blocks as the code, including 192.88.98.0/24. */
  predicate IsGlobalUnicast(ip: Word32) {
    if ip < 0x8000_0000 then
      ip / 0x100_0000 != 0x0a && ip / 0x100_0000 != 0x7f && ip / 0x100_0000 != 0
    else if ip < 0xc000_0000 then
      ip / 0x1_0000 != 0xa9fe && ip / 0x10_0000 != 0xac1
    else if ip < 0xe000_0000 then
      ip / 0x1_0000 != 0xc0a8 && ip / 0x100 != 0xc0_5862
    else
      0xf000_0000 <= ip && ip != 0xffff_ffff
  }

  /** The test of `is_valid_teredo_prefix` on a word held in network order. */
  predicate IsValidPrefix(host: Endian, prefix: Word32) {
    match host
    case Big => prefix / 0x100_0000 != 0xff
    case Little => prefix % 0x100 != 0xff
  }

  function Encode(a: Addr): (b: seq<Byte>)
    ensures |b| == 16
  {
    Put32(a.prefix) + Put32(a.server) + InterfaceId(a)
  }

  /** The low 64 bits. */
  function InterfaceId(a: Addr): (b: seq<Byte>)
    ensures |b| == 8
  {
    Put16(a.flags) + Put16(a.port) + Put32(a.ip)
  }

  function Decode(b: seq<Byte>): Addr
    requires |b| == 16
  {
    Addr(Get32(b[..4]), Get32(b[4..8]), Get16(b[8..10]), Get16(b[10..12]), Get32(b[12..]))
  }

  /** The structured view loses nothing: it is a bijection with 16-byte addresses. */
  lemma AddressBytes(a: Addr, b: seq<Byte>)
    requires |b| == 16
    ensures Decode(Encode(a)) == a
    ensures Encode(Decode(b)) == b
    ensures Encode(a)[8..] == InterfaceId(a)
  {
    var e := Encode(a);
    assert e[..4] == Put32(a.prefix) && e[4..8] == Put32(a.server);
    assert e[8..10] == Put16(a.flags) && e[10..12] == Put16(a.port) && e[12..] == Put32(a.ip);
    Words32(a.prefix, b[..4]);
    Words32(a.server, b[4..8]);
    Words16(a.flags, b[8..10]);
    Words16(a.port, b[10..12]);
    Words32(a.ip, b[12..]);
    assert b == b[..4] + b[4..8] + (b[8..10] + b[10..12] + b[12..]);
  }

  /** Equal low 64 bits mean equal low fields. */
  lemma InterfaceIdInjective(a: Addr, b: Addr)
    requires InterfaceId(a) == InterfaceId(b)
    ensures a.flags == b.flags && a.port == b.port && a.ip == b.ip
  {
    AddressBytes(a, Encode(a));
    AddressBytes(b, Encode(b));
    assert Encode(a)[8..10] == InterfaceId(a)[..2] && Encode(b)[8..10] == InterfaceId(b)[..2];
    assert Encode(a)[10..12] == InterfaceId(a)[2..4] && Encode(b)[10..12] == InterfaceId(b)[2..4];
    assert Encode(a)[12..] == InterfaceId(a)[4..] && Encode(b)[12..] == InterfaceId(b)[4..];
  }
}

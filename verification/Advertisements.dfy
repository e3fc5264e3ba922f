/** Router solicitations and advertisements, and the client's advertisement parser. */
module Advertisements {
  import opened Bytes
  import opened Addresses
  import opened Encapsulation
  import opened Packets

  function SolicitBody(ck: seq<Byte>): seq<Byte> {
    [133, 0] + ck + [0, 0, 0, 0]
  }

  /** The authenticated solicitation of `teredo_send_rs`, with its precomputed checksum. */
  function Solicitation(nonce: seq<Byte>, cone: bool): seq<Byte>
    requires |nonce| == 8
  {
    AuthHeader(AuthFields([], [], nonce, 0)) + SolicitPacket(cone)
  }

  function SolicitPacket(cone: bool): seq<Byte> {
    Header(8, ICMPV6, 255, if cone then CONE else RESTRICT, ALL_ROUTERS)
    + SolicitBody(if cone then Put16(0x125d) else Put16(0x7d37))
  }

  function PrefixOption(prefix: Word32, server: Word32): (b: seq<Byte>)
    ensures |b| == 32
  {
    [3, 4, 64, 0x40] + Put32(0xffff_ffff) + Put32(0xffff_ffff) + Zeros(4)
    + Put32(prefix) + Put32(server) + Zeros(8)
  }

  function MtuOption(mtu: Word32): (b: seq<Byte>)
    ensures |b| == 8
  {
    [5, 1, 0, 0] + Put32(mtu)
  }

  function AdvertBody(prefix: Word32, server: Word32, mtu: Word32, ck: seq<Byte>): (b: seq<Byte>)
    requires |ck| == 2
    ensures |b| == 56
  {
    [134, 0] + ck + (Zeros(8) + Put32(2000) + PrefixOption(prefix, server) + MtuOption(mtu))
  }

  function Advert(host: Endian, src: Addr, dst: Addr, prefix: Word32, server: Word32, mtu: Word32): (b: seq<Byte>)
    ensures |b| == 96
  {
    var ck := IcmpChecksum(host, src, dst, AdvertBody(prefix, server, mtu, [0, 0]));
    Header(56, ICMPV6, 255, src, dst) + AdvertBody(prefix, server, mtu, ck)
  }

  /** The options of section 4.6 of RFC 2461 up to fewer than 8 bytes of slack, if they fit. */
  function SplitOptions(b: seq<Byte>): Option<seq<seq<Byte>>>
    decreases |b|
  {
    if |b| < 8 then Some([])
    else
      var n := 8 * b[1] as int;
      if n == 0 || n > |b| then None
      else match SplitOptions(b[n..])
           case None => None
           case Some(rest) => Some([b[..n]] + rest)
  }

  predicate IsPrefixOption(o: seq<Byte>) { |o| >= 8 && o[0] == 3 }
  predicate IsMtuOption(o: seq<Byte>) { |o| >= 8 && o[0] == 5 }

  function MtuOf(o: seq<Byte>): Word32
    requires |o| >= 8
  {
    Get32(o[4..8])
  }

  /** The first two words of the advertised prefix. */
  function PrefixOf(o: seq<Byte>): (Word32, Word32)
    requires |o| >= 24
  {
    (Get32(o[16..20]), Get32(o[20..24]))
  }

  predicate GoodOption(o: seq<Byte>) {
    && (IsPrefixOption(o) ==> |o| >= 32 && o[2] == 64)
    && (IsMtuOption(o) ==> 1280 <= MtuOf(o) <= 65535)
  }

  predicate AllGood(opts: seq<seq<Byte>>) {
    forall i :: 0 <= i < |opts| ==> GoodOption(opts[i])
  }

  /** Every option is sound, and no prefix follows one that names a server. */
  predicate GoodOptions(opts: seq<seq<Byte>>) {
    && AllGood(opts)
    && (forall i, j :: 0 <= i < j < |opts| && IsPrefixOption(opts[i]) && IsPrefixOption(opts[j])
                       ==> PrefixOf(opts[i]).1 == 0)
  }

  /** Prefix and server of the last prefix option. */
  function LastPrefix(opts: seq<seq<Byte>>, prior: Word32): (Word32, Word32)
    requires AllGood(opts)
  {
    if |opts| == 0 then (prior, 0)
    else if IsPrefixOption(opts[|opts| - 1]) then PrefixOf(opts[|opts| - 1])
    else LastPrefix(opts[..|opts| - 1], prior)
  }

  /** Value of the last MTU option, 0 without one. */
  function LastMtu(opts: seq<seq<Byte>>): (m: Word32)
    requires AllGood(opts)
    ensures m == 0 || 1280 <= m <= 65535
  {
    if |opts| == 0 then 0
    else if IsMtuOption(opts[|opts| - 1]) then MtuOf(opts[|opts| - 1])
    else LastMtu(opts[..|opts| - 1])
  }

  function Modern(prefix: Word32): Word32 {
    if prefix == TEREDO_PREFIX_OBSOLETE then TEREDO_PREFIX else prefix
  }

  /** The fixed part of an acceptable advertisement. */
  predicate IsAdvert(p: Packet, cone: bool)
    requires WellFormed(p.ip6)
  {
    && p.orig.ip != 0
    && Destination(p.ip6) == (if cone then CONE else RESTRICT)
    && NextHeader(p.ip6) == ICMPV6
    && |Body(p.ip6)| >= 48
    && Body(p.ip6)[0] == 134 && Body(p.ip6)[1] == 0
  }

  /** What a received advertisement says; `prior` is the prefix word the caller's buffer held. */
  datatype RaResult = Rejected | Accepted(addr: Addr, mtu: Word32)

  function ReadAdvert(host: Endian, p: Packet, cone: bool, prior: Word32): RaResult
    requires WellFormed(p.ip6)
  {
    if !IsAdvert(p, cone) then Rejected
    else match SplitOptions(Body(p.ip6)[16..])
         case None => Rejected
         case Some(opts) =>
           if !GoodOptions(opts) then Rejected
           else
             var (prefix, server) := LastPrefix(opts, prior);
             if !IsValidPrefix(host, Modern(prefix)) then Rejected
             else Accepted(ClientAddr(Modern(prefix), server, if cone then FLAG_CONE else 0, p.orig), LastMtu(opts))
  }

  /** Options already read, followed by what is left to read, are all the options. */
  ghost predicate ReadSoFar(all: seq<Byte>, done: seq<seq<Byte>>, rest: seq<Byte>) {
    SplitOptions(all) == match SplitOptions(rest)
                         case None => None
                         case Some(r) => Some(done + r)
  }

  lemma ReadOne(all: seq<Byte>, done: seq<seq<Byte>>, rest: seq<Byte>, n: nat)
    requires ReadSoFar(all, done, rest) && 8 <= |rest|
    requires n == 8 * rest[1] as int && 0 < n <= |rest|
    ensures ReadSoFar(all, done + [rest[..n]], rest[n..])
  {
    match SplitOptions(rest[n..]) {
      case None =>
      case Some(r) =>
        assert done + ([rest[..n]] + r) == done + [rest[..n]] + r;
    }
  }

  lemma BadOptionRejects(all: seq<Byte>, done: seq<seq<Byte>>, rest: seq<Byte>)
    requires ReadSoFar(all, done, rest) && !GoodOptions(done)
    ensures SplitOptions(all).None? || !GoodOptions(SplitOptions(all).value)
  {
    if SplitOptions(rest).Some? {
      var opts := done + SplitOptions(rest).value;
      assert forall i :: 0 <= i < |done| ==> opts[i] == done[i];
    }
  }

  /** The last prefix option names no server exactly when no prefix option does. */
  lemma {:induction false} LastPrefixZero(opts: seq<seq<Byte>>, prior: Word32)
    requires GoodOptions(opts)
    ensures LastPrefix(opts, prior).1 == 0
            <==> forall i :: 0 <= i < |opts| && IsPrefixOption(opts[i]) ==> PrefixOf(opts[i]).1 == 0
  {
    if |opts| > 0 && !IsPrefixOption(opts[|opts| - 1]) {
      LastPrefixZero(opts[..|opts| - 1], prior);
    }
  }

  lemma OneMoreOption(done: seq<seq<Byte>>, o: seq<Byte>, prior: Word32)
    requires GoodOptions(done)
    ensures GoodOptions(done + [o])
            <==> GoodOption(o) && (IsPrefixOption(o) ==> LastPrefix(done, prior).1 == 0)
    ensures GoodOptions(done + [o]) ==>
              && LastPrefix(done + [o], prior) == (if IsPrefixOption(o) then PrefixOf(o) else LastPrefix(done, prior))
              && LastMtu(done + [o]) == (if IsMtuOption(o) then MtuOf(o) else LastMtu(done))
  {
    var all := done + [o];
    assert all[..|done|] == done && all[|done|] == o;
    assert forall i :: 0 <= i < |done| ==> all[i] == done[i];
    LastPrefixZero(done, prior);
  }

  lemma OptionBytes(b: seq<Byte>, at: nat, n: nat)
    requires at + n <= |b| && n >= 8
    ensures var o := b[at..at + n];
            && o[0] == b[at] && o[2] == b[at + 2]
            && MtuOf(o) == Get32(b[at + 4..at + 8])
            && (n >= 32 ==> PrefixOf(o) == (Get32(b[at + 16..at + 20]), Get32(b[at + 20..at + 24])))
  {
    SliceOfSlice(b, at, at + n, 4, 8);
    if n >= 32 {
      SliceOfSlice(b, at, at + n, 16, 20);
      SliceOfSlice(b, at, at + n, 20, 24);
    }
  }

  /** One turn of the option loop in terms of the bytes it reads. */
  lemma ReadOption(b: seq<Byte>, done: seq<seq<Byte>>, at: nat, n: nat, prior: Word32)
    requires at + 8 <= |b| && n == 8 * b[at + 1] as int && 0 < n && at + n <= |b|
    requires ReadSoFar(b, done, b[at..]) && GoodOptions(done)
    ensures var good := && (b[at] == 3 ==> n >= 32 && b[at + 2] == 64 && LastPrefix(done, prior).1 == 0)
                        && (b[at] == 5 ==> 1280 <= Get32(b[at + 4..at + 8]) <= 65535);
            var more := done + [b[at..at + n]];
            if !good then SplitOptions(b).None? || !GoodOptions(SplitOptions(b).value)
            else && ReadSoFar(b, more, b[at + n..]) && GoodOptions(more)
                 && LastPrefix(more, prior)
                    == (if b[at] == 3 then (Get32(b[at + 16..at + 20]), Get32(b[at + 20..at + 24]))
                        else LastPrefix(done, prior))
                 && LastMtu(more) == if b[at] == 5 then Get32(b[at + 4..at + 8]) else LastMtu(done)
  {
    var o, rest := b[at..at + n], b[at..];
    assert rest[..n] == o && rest[n..] == b[at + n..];
    OptionBytes(b, at, n);
    ReadOne(b, done, rest, n);
    OneMoreOption(done, o, prior);
    if !GoodOptions(done + [o]) {
      BadOptionRejects(b, done + [o], b[at + n..]);
    }
  }

  lemma ReadNothing(opts: seq<Byte>, prior: Word32)
    ensures ReadSoFar(opts, [], opts[0..])
    ensures GoodOptions([]) && LastPrefix([], prior) == (prior, 0) && LastMtu([]) == 0
  {
    assert opts[0..] == opts;
    if SplitOptions(opts).Some? {
      assert [] + SplitOptions(opts).value == SplitOptions(opts).value;
    }
  }

  lemma BadLengthRejects(opts: seq<Byte>, done: seq<seq<Byte>>, at: nat)
    requires at + 8 <= |opts| && ReadSoFar(opts, done, opts[at..])
    requires var n := 8 * opts[at + 1] as int; n == 0 || at + n > |opts|
    ensures SplitOptions(opts).None?
  {
    assert opts[at..][1] == opts[at + 1];
  }

  lemma ReadAll(opts: seq<Byte>, done: seq<seq<Byte>>, rest: seq<Byte>)
    requires ReadSoFar(opts, done, rest) && |rest| < 8
    ensures SplitOptions(opts) == Some(done)
  {
    assert done + [] == done;
  }

  /** The option loop; every read is inside `opts`. */
  method ReadOptions(opts: seq<Byte>, prior: Word32)
    returns (ok: bool, prefix: Word32, server: Word32, mtu: Word32)
    ensures ok <==> SplitOptions(opts).Some? && GoodOptions(SplitOptions(opts).value)
    ensures ok ==> (prefix, server) == LastPrefix(SplitOptions(opts).value, prior)
    ensures ok ==> mtu == LastMtu(SplitOptions(opts).value)
  {
    hide ReadSoFar, SplitOptions, AllGood, LastPrefix, LastMtu, Get32;
    ok, prefix, server, mtu := false, prior, 0, 0;
    var length, hdr := |opts|, 0;
    ghost var done: seq<seq<Byte>> := [];
    ReadNothing(opts, prior);
    while length >= 8
      invariant 0 <= hdr && 0 <= length && hdr + length == |opts|
      invariant ReadSoFar(opts, done, opts[hdr..]) && GoodOptions(done)
      invariant (prefix, server) == LastPrefix(done, prior)
      invariant mtu == LastMtu(done)
      decreases length
    {
      var optlen := 8 * opts[hdr + 1] as int;
      if length < optlen || optlen == 0 {
        BadLengthRejects(opts, done, hdr);
        return;
      }
      ReadOption(opts, done, hdr, optlen, prior);
      if opts[hdr] == 3 {
        if optlen < 32 || opts[hdr + 2] != 64 {
          return;
        }
        if server != 0 {
          return;
        }
        prefix, server := Get32(opts[hdr + 16..hdr + 20]), Get32(opts[hdr + 20..hdr + 24]);
      } else if opts[hdr] == 5 {
        mtu := Get32(opts[hdr + 4..hdr + 8]);
        if mtu < 1280 || mtu > 65535 {
          return;
        }
      }
      done := done + [opts[hdr..hdr + optlen]];
      hdr := hdr + optlen;
      length := length - optlen;
    }
    ReadAll(opts, done, opts[hdr..]);
    ok := true;
  }

  /** `teredo_parse_ra`; `prior` and `mtu` are what the caller's buffers hold before the call. */
  method ParseRa(host: Endian, p: Packet, cone: bool, prior: Addr, mtu: Word16)
    returns (ok: bool, newaddr: Addr, newMtu: Word16)
    requires WellFormed(p.ip6)
    ensures ok == ReadAdvert(host, p, cone, prior.prefix).Accepted?
    ensures ok ==> newaddr == ReadAdvert(host, p, cone, prior.prefix).addr
    ensures var r := ReadAdvert(host, p, cone, prior.prefix);
            newMtu == if ok && r.mtu != 0 then r.mtu else mtu
  {
    hide Destination, NextHeader, PayloadLength, SplitOptions, AllGood, LastPrefix, LastMtu, IsValidPrefix;
    ok, newaddr, newMtu := false, prior, mtu;
    if p.orig.ip == 0 {
      return;
    }
    var length: int := PayloadLength(p.ip6);
    if Destination(p.ip6) != (if cone then CONE else RESTRICT) || NextHeader(p.ip6) != ICMPV6 || length < 16 {
      return;
    }
    var ra := Body(p.ip6);
    length := length - 16;
    if ra[0] != 134 || ra[1] != 0 || length < 32 {
      return;
    }
    var sound, prefix, server, netMtu := ReadOptions(ra[16..], prior.prefix);
    if !sound {
      return;
    }
    if prefix == TEREDO_PREFIX_OBSOLETE {
      prefix := TEREDO_PREFIX;
    }
    if !IsValidPrefix(host, prefix) {
      return;
    }
    newaddr := Addr(prefix, server, if cone then FLAG_CONE else 0, Flip16(p.orig.port), Flip32(p.orig.ip));
    if netMtu != 0 {
      newMtu := netMtu;
    }
    ok := true;
  }

  /** `maintenance_recv` on a packet that carries an authentication header. */
  predicate MaintenanceAccepts(host: Endian, p: Packet, server: Word32, nonce: seq<Byte>, prior: Word32)
    requires WellFormed(p.ip6)
  {
    && p.auth == Some(Auth(nonce, false))
    && ReadAdvert(host, p, false, prior).Accepted?
    && ReadAdvert(host, p, false, prior).addr.server == server
  }

  /** Whenever an advertisement is accepted, exactly one of its prefix options names a server:
      it is the last prefix option, it is a /64 and it names the expected server. */
  lemma AcceptedPrefix(host: Endian, p: Packet, server: Word32, nonce: seq<Byte>, prior: Word32)
    returns (opts: seq<seq<Byte>>, k: nat)
    requires WellFormed(p.ip6) && server != 0
    requires MaintenanceAccepts(host, p, server, nonce, prior)
    ensures |Body(p.ip6)| >= 16 && SplitOptions(Body(p.ip6)[16..]) == Some(opts)
    ensures AllGood(opts)
    ensures k < |opts| && IsPrefixOption(opts[k]) && opts[k][2] == 64 && PrefixOf(opts[k]).1 == server
    ensures forall i :: k < i < |opts| ==> !IsPrefixOption(opts[i])
    ensures forall i :: 0 <= i < |opts| && i != k && IsPrefixOption(opts[i]) ==> PrefixOf(opts[i]).1 == 0
    ensures ReadAdvert(host, p, false, prior).addr
            == ClientAddr(Modern(PrefixOf(opts[k]).0), server, 0, p.orig)
  {
    opts := SplitOptions(Body(p.ip6)[16..]).value;
    k := FindLastPrefix(opts, prior);
  }

  lemma {:induction false} FindLastPrefix(opts: seq<seq<Byte>>, prior: Word32) returns (k: nat)
    requires AllGood(opts) && LastPrefix(opts, prior).1 != 0
    ensures k < |opts| && IsPrefixOption(opts[k]) && PrefixOf(opts[k]) == LastPrefix(opts, prior)
    ensures forall i :: k < i < |opts| ==> !IsPrefixOption(opts[i])
  {
    k := |opts| - 1;
    if !IsPrefixOption(opts[k]) {
      k := FindLastPrefix(opts[..k], prior);
    }
  }
}

/** The server: what it does with one datagram (sections 5.3.1 and 5.3.2 of RFC 4380). */
module Server {
  import opened Bytes
  import opened Addresses
  import opened Encapsulation
  import opened Packets
  import opened Advertisements

  datatype Server = Server(ip: Word32, ip2: Word32, prefix: Word32, mtu: Word32)

  /** What the server sends: from its primary or secondary UDP socket, or raw IPv6. */
  datatype Output = Udp(secondary: bool, to: Endpoint, data: seq<Byte>) | Raw(ip6: seq<Byte>)

  function LinkLocal(s: Server): Addr {
    ClientAddr(0xfe80_0000, 0, FLAG_CONE, Endpoint(s.ip, TEREDO_PORT))
  }

  predicate IsSolicitation(ip6: seq<Byte>)
    requires WellFormed(ip6)
  {
    NextHeader(ip6) == ICMPV6 && PayloadLength(ip6) >= 8 && ip6[40] == 133
  }

  /** The source is one of the server's own sockets. */
  predicate FromOurselves(s: Server, from: Endpoint) {
    (from.ip == s.ip || from.ip == s.ip2) && from.port == TEREDO_PORT
  }

  /** `SendRA`: the nonce is what the packet's nonce field holds, `stale` if nothing was read into it. */
  function SendRa(host: Endian, s: Server, p: Packet, secondary: bool, stale: seq<Byte>): Output
    requires |p.ip6| >= 40 && |stale| == 8
  {
    var dst := Source(p.ip6);
    var nonce := if p.auth.Some? && |p.auth.value.nonce| == 8 then p.auth.value.nonce else stale;
    Udp(if IsCone(dst) then !secondary else secondary, p.source,
        Wrap(Some(AuthFields([], [], nonce, 0)), Some(p.source),
             Advert(host, LinkLocal(s), dst, s.prefix, s.ip, s.mtu)))
  }

  function ForwardUdp(p: Packet, insertOrig: bool): Option<Output>
    requires |p.ip6| >= 40
  {
    var to := Embedded(Destination(p.ip6));
    if !IsGlobalUnicast(to.ip) then None
    else Some(Udp(false, to, Wrap(None, if insertOrig then Some(p.source) else None, p.ip6)))
  }

  /** `teredo_process_packet` on a parsed datagram. */
  function ProcessPacket(host: Endian, s: Server, secondary: bool, p: Packet, stale: seq<Byte>): Option<Output>
    requires |stale| == 8
  {
    if !WellFormed(p.ip6) then None
    else if !IsBubble(p.ip6) && NextHeader(p.ip6) != ICMPV6 then None
    else if !IsGlobalUnicast(p.source.ip) then None
    else
      var src, dst := Source(p.ip6), Destination(p.ip6);
      if IsLinkLocal(src) && dst == ALL_ROUTERS && IsSolicitation(p.ip6) then
        Accept(host, s, secondary, p, stale)
      else if src.prefix == s.prefix then
        if Embedded(src) == p.source then Accept(host, s, secondary, p, stale) else None
      else if dst.prefix == s.prefix && dst.server == s.ip then
        Accept(host, s, secondary, p, stale)
      else None
  }

  function Accept(host: Endian, s: Server, secondary: bool, p: Packet, stale: seq<Byte>): Option<Output>
    requires WellFormed(p.ip6) && |stale| == 8
  {
    var dst := Destination(p.ip6);
    if FromOurselves(s, p.source) then None
    else if dst == ALL_ROUTERS || dst == LinkLocal(s) then
      if IsSolicitation(p.ip6) then Some(SendRa(host, s, p, secondary, stale)) else None
    else if !IsGlobalV6(dst) then None
    else if NextHeader(p.ip6) != NO_NEXT_HEADER && PayloadLength(p.ip6) > 88 then None
    else if dst.prefix != s.prefix then Some(Raw(p.ip6[..40 + PayloadLength(p.ip6) as int]))
    else ForwardUdp(p, dst.server == s.ip)
  }

  /** The acceptance rules of section 5.3.1, independent of their order. */
  ghost predicate Acceptable(s: Server, p: Packet) {
    && WellFormed(p.ip6)
    && (IsBubble(p.ip6) || NextHeader(p.ip6) == ICMPV6)
    && IsGlobalUnicast(p.source.ip)
    && var src, dst := Source(p.ip6), Destination(p.ip6);
       || (IsLinkLocal(src) && dst == ALL_ROUTERS && IsSolicitation(p.ip6))
       || (src.prefix == s.prefix && Embedded(src) == p.source)
       || (src.prefix != s.prefix && dst.prefix == s.prefix && dst.server == s.ip)
  }

  /** Where an accepted packet can go. */
  ghost predicate Routable(s: Server, p: Packet)
    requires WellFormed(p.ip6)
  {
    var dst := Destination(p.ip6);
    if dst == ALL_ROUTERS || dst == LinkLocal(s) then IsSolicitation(p.ip6)
    else && IsGlobalV6(dst)
         && (IsBubble(p.ip6) || PayloadLength(p.ip6) <= 88)
         && (dst.prefix == s.prefix ==> IsGlobalUnicast(Embedded(dst).ip))
  }

  /** The server answers exactly the acceptable, routable packets that are not its own. */
  lemma ServerAnswersExactly(host: Endian, s: Server, secondary: bool, p: Packet, stale: seq<Byte>)
    requires |stale| == 8
    ensures ProcessPacket(host, s, secondary, p, stale).Some?
            <==> Acceptable(s, p) && !FromOurselves(s, p.source) && Routable(s, p)
  {
    if Acceptable(s, p) && IsBubble(p.ip6) {
      assert PayloadLength(p.ip6) == 0;
    }
  }

  datatype Delivery = Delivery(secondary: bool, packet: Packet, stale: seq<Byte>)

  /** The outputs of a whole run. */
  function Outputs(host: Endian, s: Server, ds: seq<Delivery>): seq<Output>
    requires forall d :: d in ds ==> |d.stale| == 8
  {
    if |ds| == 0 then []
    else
      var n := |ds| - 1;
      var o := ProcessPacket(host, s, ds[n].secondary, ds[n].packet, ds[n].stale);
      Outputs(host, s, ds[..n]) + (if o.Some? then [o.value] else [])
  }

  function Outside(s: Server, ds: seq<Delivery>): nat {
    if |ds| == 0 then 0
    else Outside(s, ds[..|ds| - 1]) + (if FromOurselves(s, ds[|ds| - 1].packet.source) then 0 else 1)
  }

  /** Every UDP datagram of a run goes to a global unicast IPv4 address. What the server sends can
      come back to it, and there is still at most one emission per datagram from outside. */
  lemma {:induction false} ForwardingChainsEnd(host: Endian, s: Server, ds: seq<Delivery>)
    requires forall d :: d in ds ==> |d.stale| == 8
    ensures |Outputs(host, s, ds)| <= Outside(s, ds)
    ensures forall o :: o in Outputs(host, s, ds) && o.Udp? ==> IsGlobalUnicast(o.to.ip)
  {
    hide IsGlobalUnicast, Advert, Wrap, Source, Destination, NextHeader, PayloadLength, Embedded, LinkLocal, IsCone,
         IsLinkLocal, IsGlobalV6;
    if |ds| > 0 {
      ForwardingChainsEnd(host, s, ds[..|ds| - 1]);
    }
  }

  // --- output that comes back ----------------------------------------------------------------------------------

  /** A datagram reaches the server from anywhere, or one it sent itself reaches it. */
  datatype Arrival =
    | Anew(secondary: bool, from: Endpoint, data: seq<Byte>, stale: seq<Byte>)
    | Back(of: nat, stale: seq<Byte>)

  /** An output, and the number of the arrival that started the chain it belongs to. */
  datatype Emission = Emission(output: Output, origin: nat)

  function Socket(s: Server, secondary: bool): Endpoint {
    Endpoint(if secondary then s.ip2 else s.ip, TEREDO_PORT)
  }

  /** The output is addressed to one of the server's own sockets. */
  predicate ComesBack(s: Server, o: Output) {
    o.Udp? && (o.to == Socket(s, false) || o.to == Socket(s, true))
  }

  /** What the server sends for a datagram received on one of its sockets. */
  function Respond(host: Endian, s: Server, secondary: bool, from: Endpoint, data: seq<Byte>,
                   stale: seq<Byte>): Option<Output>
    requires |stale| == 8
  {
    match Received(from, Socket(s, secondary).ip, data)
    case None => None
    case Some(p) => ProcessPacket(host, s, secondary, p, stale)
  }

  /** Arrival number `n`, when `sent` has been sent so far. What comes back does so from the socket
      that sent it, to the socket it is addressed to. */
  function Arrive(host: Endian, s: Server, sent: seq<Emission>, n: nat, a: Arrival): Option<Emission>
    requires |a.stale| == 8
  {
    match a
    case Anew(secondary, from, data, stale) =>
      (match Respond(host, s, secondary, from, data, stale)
       case None => None
       case Some(o) => Some(Emission(o, n)))
    case Back(of, stale) =>
      if of >= |sent| || !ComesBack(s, sent[of].output) then None
      else
        var o := sent[of].output;
        match Respond(host, s, o.to != Socket(s, false), Socket(s, o.secondary), o.data, stale)
        case None => None
        case Some(o') => Some(Emission(o', sent[of].origin))
  }

  /** Everything sent in a run. */
  function Sent(host: Endian, s: Server, arrivals: seq<Arrival>): seq<Emission>
    requires forall a :: a in arrivals ==> |a.stale| == 8
  {
    if |arrivals| == 0 then []
    else
      var n := |arrivals| - 1;
      var sent := Sent(host, s, arrivals[..n]);
      match Arrive(host, s, sent, n, arrivals[n])
      case None => sent
      case Some(e) => sent + [e]
  }

  lemma OwnSocket(s: Server, secondary: bool)
    ensures FromOurselves(s, Socket(s, secondary))
  {
  }

  lemma RespondsToOthers(host: Endian, s: Server, secondary: bool, from: Endpoint, data: seq<Byte>, stale: seq<Byte>)
    requires |stale| == 8
    ensures var o := Respond(host, s, secondary, from, data, stale);
            o.Some? ==> !FromOurselves(s, from) && (o.value.Udp? ==> IsGlobalUnicast(o.value.to.ip))
  {
    hide IsGlobalUnicast, Advert, Wrap, Source, Destination, NextHeader, PayloadLength, Embedded, LinkLocal, IsCone,
         IsLinkLocal, IsGlobalV6, Parse;
  }

  /** A chain starts with a datagram from outside. */
  predicate StartedOutside(s: Server, arrivals: seq<Arrival>, e: Emission) {
    && e.origin < |arrivals| && arrivals[e.origin].Anew? && !FromOurselves(s, arrivals[e.origin].from)
    && (e.output.Udp? ==> IsGlobalUnicast(e.output.to.ip))
  }

  /** Each emission is the first of a chain that started outside, and no two share a chain. */
  ghost predicate ChainsOfOne(s: Server, arrivals: seq<Arrival>, sent: seq<Emission>) {
    && (forall i :: 0 <= i < |sent| ==> StartedOutside(s, arrivals, sent[i]))
    && (forall i, j :: 0 <= i < j < |sent| ==> sent[i].origin < sent[j].origin)
  }

  /** Every chain ends after one emission. In any run in which outputs addressed to the server come
      back to it, any number of times, each emission is the first of its chain, which a datagram
      from outside started; no two belong to the same chain; nothing is emitted for what comes back;
      and every UDP datagram goes to a global unicast IPv4 address. */
  lemma {:induction false} ChainsEnd(host: Endian, s: Server, arrivals: seq<Arrival>)
    requires forall a :: a in arrivals ==> |a.stale| == 8
    ensures ChainsOfOne(s, arrivals, Sent(host, s, arrivals))
    ensures |arrivals| > 0 && arrivals[|arrivals| - 1].Back? ==>
              Sent(host, s, arrivals) == Sent(host, s, arrivals[..|arrivals| - 1])
  {
    hide Respond, IsGlobalUnicast, FromOurselves, Socket, ComesBack;
    if |arrivals| > 0 {
      var n := |arrivals| - 1;
      var before, a := arrivals[..n], arrivals[n];
      ChainsEnd(host, s, before);
      var sent := Sent(host, s, before);
      forall i | 0 <= i < |sent|
        ensures StartedOutside(s, arrivals, sent[i]) && sent[i].origin < n
      {
        assert StartedOutside(s, before, sent[i]);
      }
      match a {
        case Anew(secondary, from, data, stale) => RespondsToOthers(host, s, secondary, from, data, stale);
        case Back(of, stale) =>
          if of < |sent| && ComesBack(s, sent[of].output) {
            var o := sent[of].output;
            ReturnIsUdp(s, o);
            OwnSocket(s, o.secondary);
            RespondsToOthers(host, s, o.to != Socket(s, false), Socket(s, o.secondary), o.data, stale);
          }
      }
    }
  }

  lemma ReturnIsUdp(s: Server, o: Output)
    requires ComesBack(s, o)
    ensures o.Udp?
  {
  }
}

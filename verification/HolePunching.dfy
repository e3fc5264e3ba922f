/** Hole punching end to end: relay or client, server and client composed through the bytes they
    exchange (sections 5.2.4, 5.2.6 and 5.3.1 of RFC 4380). */
module HolePunching {
  import opened Bytes
  import opened Addresses
  import opened Encapsulation
  import opened Packets
  import opened Peers
  import opened Tunnels
  import opened Server
  import opened Backlogs
  import L = PeerLists

  /** `b` is a usable Teredo address of a client of the server `s`. */
  ghost predicate ClientOf(s: Server, b: Addr) {
    && b.prefix == s.prefix && b.server == s.ip
    && !IsLinkLocal(b) && !IsMulticast(b)
    && IsGlobalUnicast(s.ip) && IsGlobalUnicast(Embedded(b).ip)
  }

  /** The bubble that asks `b` to open its NAT toward us. */
  function Request(env: Env, b: Addr): (d: seq<Byte>)
    ensures |d| == 40
  {
    Bubble(BubbleSource(env.secret, b), b)
  }

  /** The bubble with which it answers. */
  function Response(env: Env, b: Addr): (d: seq<Byte>)
    ensures |d| == 40
  {
    Bubble(b, BubbleSource(env.secret, b))
  }

  /** Bubbles are received as they are sent. */
  lemma BubbleReceived(src: Addr, dst: Addr, from: Endpoint, destIp: Word32)
    ensures Received(from, destIp, Bubble(src, dst)) == Some(Packet(from, destIp, None, NOWHERE, Bubble(src, dst)))
  {
    hide Bubble;
    BubbleFields(src, dst);
    WrapRoundTrip(None, None, Bubble(src, dst));
  }

  // --- the server forwards the request -----------------------------------------------------------------------

  lemma ServerForwards(host: Endian, s: Server, env: Env, b: Addr, us: Endpoint, stale: seq<Byte>)
    requires |stale| == 8 && ClientOf(s, b)
    requires IsGlobalUnicast(us.ip) && !FromOurselves(s, us)
    ensures var p := Packet(us, s.ip, None, NOWHERE, Request(env, b));
            ProcessPacket(host, s, false, p, stale)
            == Some(Udp(false, Embedded(b), Wrap(None, Some(us), Request(env, b))))
  {
    hide Bubble, Source, Destination, NextHeader, PayloadLength, IsGlobalUnicast, SendRa, BubbleToken;
    BubbleFields(BubbleSource(env.secret, b), b);
    BubbleHeader(BubbleSource(env.secret, b), b);
    ClientFacts(s, b);
  }

  lemma ClientFacts(s: Server, b: Addr)
    requires ClientOf(s, b)
    ensures b != ALL_ROUTERS && b != LinkLocal(s) && IsGlobalV6(b) && s.prefix != 0xfe80_0000
  {
    assert b.server != 0;
  }

  lemma BubbleHeader(src: Addr, dst: Addr)
    ensures NextHeader(Bubble(src, dst)) == NO_NEXT_HEADER && PayloadLength(Bubble(src, dst)) == 0
  {
    BubbleFields(src, dst);
  }

  lemma ForwardReceived(env: Env, b: Addr, us: Endpoint, from: Endpoint, destIp: Word32)
    ensures Received(from, destIp, Wrap(None, Some(us), Request(env, b)))
            == Some(Packet(from, destIp, None, us, Request(env, b)))
  {
    hide Bubble, Parse, Wrap;
    WrapRoundTrip(None, Some(us), Request(env, b));
  }

  // --- the peer answers -----------------------------------------------------------------------------------------

  lemma PeerAnswers(envA: Env, envB: Env, t: Tunnel, b: Addr, us: Endpoint, destIp: Word32, now: Clock, time: Word32,
                    alloc: bool, junk: Peer)
    requires t.client && t.state.up && t.state.addr == b
    requires IsGlobalUnicast(us.ip)
    ensures var p := Packet(Endpoint(b.server, TEREDO_PORT), destIp, None, us, Request(envA, b));
            Receive(envB, t, p, now, time, alloc, junk) == (t, [Control(us, Response(envA, b))])
  {
    hide Bubble, Source, Destination, NextHeader, PayloadLength, BubbleToken, Process, IsLinkLocal, IsMulticast;
    BubbleFields(BubbleSource(envA.secret, b), b);
    assert us.ip != 0;
  }

  /** A server may forward without saying where from: a Teredo sender is then answered at the
      endpoint its address embeds. */
  lemma PeerGuesses(env: Env, t: Tunnel, a: Addr, destIp: Word32, now: Clock, time: Word32, alloc: bool, junk: Peer)
    requires t.client && t.state.up && a.prefix == t.state.addr.prefix && IsGlobalUnicast(Embedded(a).ip)
    ensures var p := Packet(Endpoint(t.state.addr.server, TEREDO_PORT), destIp, None, NOWHERE, Bubble(a, t.state.addr));
            Receive(env, t, p, now, time, alloc, junk) == (t, [Control(Embedded(a), Bubble(t.state.addr, a))])
  {
    hide Bubble, Source, Destination, NextHeader, PayloadLength, Process, IsLinkLocal, IsMulticast;
    BubbleFields(a, t.state.addr);
    assert Embedded(a).ip != 0;
  }

  // --- we transmit -----------------------------------------------------------------------------------------

  /** A tunnel that may transmit toward the client `b` of `s`. */
  ghost predicate Ready(t: Tunnel, s: Server, b: Addr) {
    ClientOf(s, b) && t.state.addr.prefix == b.prefix && (t.client ==> t.state.up)
  }

  /** The first transmission toward an unknown peer sends the request through the peer's server. */
  lemma FirstTransmit(env: Env, t: Tunnel, s: Server, b: Addr, e: Event)
    requires Ready(t, s, b) && Toward(t, e, b)
    requires b !in t.list.peers && t.list.left > 0 && e.alloc
    ensures var os := Step(env, t, e).1;
            |os| > 0 && os[|os| - 1] == Control(Endpoint(s.ip, TEREDO_PORT), Request(env, b))
  {
    hide Destination, Source, L.Without, CountPing, Elapsed, Limit, IsMulticast, Embedded, SendPing, IsCone, Bubble,
         BubbleSource, IsGlobalUnicast;
  }

  // --- the answer arrives ----------------------------------------------------------------------------------

  lemma AnswerArrives(env: Env, t: Tunnel, s: Server, b: Addr, at: Endpoint, destIp: Word32, now: Clock, time: Word32,
                      alloc: bool, junk: Peer)
    requires Ready(t, s, b) && b in t.list.peers && !t.list.peers[b].trusted
    requires t.client ==> at != Endpoint(t.state.addr.server, TEREDO_PORT)
    ensures var p := Packet(at, destIp, None, NOWHERE, Response(env, b));
            var (t', os) := Receive(env, t, p, now, time, alloc, junk);
            && b in t'.list.peers && t'.list.peers[b] == Confirmed(t.list.peers[b], at, now)
            && os == Drain(t.list.peers[b].queue, at)
  {
    hide Bubble, Source, Destination, BubbleToken, BubbleSource, Drain, L.Without, IsGlobalUnicast, Confirmed,
         NextHeader, PayloadLength, CheckBubble, InterfaceId;
    var src := BubbleSource(env.secret, b);
    BubbleFields(b, src);
    BubbleHeader(b, src);
    CheckBubbleExact(env.secret, Bubble(b, src));
    BubbleSourcePrefix(env, b);
    var d := Drain(t.list.peers[b].queue, at);
    assert d + [] == d && [] + d == d;
  }

  lemma BubbleSourcePrefix(env: Env, b: Addr)
    ensures BubbleSource(env.secret, b).prefix == 0xfe80_0000
  {
  }

  /** The whole exchange. A transmits to an unlisted Teredo peer B, and goes on with any traffic,
      to B and to others, that does not disturb the entry of B. Its request crosses B's server to
      B, B answers, and the answer reaches A from any endpoint `at`, whether or not B's address
      embeds it. Then A trusts B at `at`, and sends there, once each, exactly the packets for B
      that had fitted in the queue. */
  lemma HolePunched(envA: Env, envB: Env, host: Endian, s: Server, a: Tunnel, tb: Tunnel, b: Addr, es: seq<Event>,
                    us: Endpoint, at: Endpoint, destB: Word32, destA: Word32, now: Clock, time: Word32,
                    alloc: bool, junk: Peer, stale: seq<Byte>)
    requires |stale| == 8 && Ready(a, s, b) && AllLegal(es) && |es| > 0 && Toward(a, es[0], b)
    requires AllUndisturbed(envA, a, es, b)
    requires b !in a.list.peers && a.list.left > 0 && es[0].alloc
    requires tb.client && tb.state.up && tb.state.addr == b
    requires IsGlobalUnicast(us.ip) && !FromOurselves(s, us)
    requires a.client ==> at != Endpoint(a.state.addr.server, TEREDO_PORT)
    ensures // A's first transmission sends a datagram to B's server,
            var out1 := Step(envA, a, es[0]).1;
            && |out1| > 0
            && var sent := out1[|out1| - 1];
            && sent.Control? && sent.to == Endpoint(s.ip, TEREDO_PORT)
            // which receives it from A's NAT and forwards it to B,
            && var atServer := Received(us, s.ip, sent.packet);
            && atServer.Some?
            && var out2 := ProcessPacket(host, s, false, atServer.value, stale);
            && out2.Some? && out2.value.Udp? && out2.value.to == Embedded(b)
            // which answers A,
            && var atB := Received(Endpoint(s.ip, TEREDO_PORT), destB, out2.value.data);
            && atB.Some?
            && var out3 := Receive(envB, tb, atB.value, now, time, alloc, junk).1;
            && |out3| == 1 && out3[0].Control? && out3[0].to == us
            // which trusts B where the answer came from and sends what was waiting
            && var atA := Received(at, destA, out3[0].packet);
            && atA.Some?
            && var (a', out4) := Receive(envA, Run(envA, a, es), atA.value, now, time, alloc, junk);
            && b in a'.list.peers
            && a'.list.peers[b].trusted && a'.list.peers[b].mapping == at && a'.list.peers[b].queue == []
            && out4 == SentTo(Fit(Offered(a, es, b)), at)
  {
    hide Step, Receive, ProcessPacket, Bubble, Run, Drain, Backlog, Fit, Received, IsGlobalUnicast, BubbleSource,
         SentTo, AllLegal, Embedded, IsLinkLocal, IsMulticast, Wrap, FromOurselves, Toward, AllUndisturbed, Offered;
    FirstTransmit(envA, a, s, b, es[0]);
    BubbleReceived(BubbleSource(envA.secret, b), b, us, s.ip);
    ServerForwards(host, s, envA, b, us, stale);
    ForwardReceived(envA, b, us, Endpoint(s.ip, TEREDO_PORT), destB);
    PeerAnswers(envA, envB, tb, b, us, destB, now, time, alloc, junk);
    BubbleReceived(b, BubbleSource(envA.secret, b), at, destA);
    RunWaits(envA, a, b, es);
    AnswerArrives(envA, Run(envA, a, es), s, b, at, destA, now, time, alloc, junk);
    BacklogDrains(Fit(Offered(a, es, b)), at);
  }
}

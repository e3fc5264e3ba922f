/** The direct connectivity test of a client (sections 5.2.4 and 5.2.9 of RFC 4380): the relay of a
    node without a Teredo address is found by the answer to an authenticated ping. */
module RelayDiscovery {
  import opened Bytes
  import opened Addresses
  import opened Encapsulation
  import opened Packets
  import opened Security
  import opened Peers
  import opened Tunnels
  import opened Backlogs
  import L = PeerLists

  /** The first transmission toward an unlisted native node pings it through our own server. */
  lemma FirstPing(env: Env, t: Tunnel, n: Addr, e: Event)
    requires n.prefix != t.state.addr.prefix && Toward(t, e, n)
    requires n !in t.list.peers && t.list.left > 0 && e.alloc
    ensures Step(env, t, e).1
            == [Control(Endpoint(t.state.addr.server, TEREDO_PORT),
                        Ping(env.host, env.secret, e.time, t.state.addr, n))]
  {
    hide Destination, Source, L.Without, CountBubble, Elapsed, Limit, Embedded, Ping, IsGlobalUnicast, IsMulticast;
  }

  /** An answer to our ping: an echo reply, or an error that quotes it. */
  predicate Answers(ip6: seq<Byte>, ping: seq<Byte>)
    requires |ping| == 66
  {
    IsEchoReply(ip6, ping) || IsUnreachable(ip6, ping)
  }

  /** Where it comes from does not matter, as long as it is not our server. */
  predicate FromRelay(t: Tunnel, p: Packet) {
    p.auth == None && p.source != Endpoint(t.state.addr.server, TEREDO_PORT)
  }

  lemma AnswerAdmitted(env: Env, t: Tunnel, n: Addr, p: Packet, sent: Word32, time: Word32)
    requires Answers(p.ip6, Ping(env.host, env.secret, sent, t.state.addr, n))
    ensures WellFormed(p.ip6) && Source(p.ip6) == n && Destination(p.ip6) == t.state.addr
    ensures CheckPing(env.secret, time, p.ip6) <==> Ticks(time, sent) < 30
  {
    PingFields(env.host, env.secret, sent, t.state.addr, n);
    PingAnswered(env.host, env.secret, sent, time, t.state.addr, n, p.ip6);
  }

  lemma AnswerJudged(env: Env, t: Tunnel, n: Addr, p: Packet, now: Clock, time: Word32, alloc: bool, junk: Peer)
    requires t.client && t.state.up && n.prefix != t.state.addr.prefix && !IsLinkLocal(n) && !IsMulticast(t.state.addr)
    requires n in t.list.peers && !t.list.peers[n].trusted && FromRelay(t, p)
    requires WellFormed(p.ip6) && Source(p.ip6) == n && Destination(p.ip6) == t.state.addr
    ensures var (t', os) := Receive(env, t, p, now, time, alloc, junk);
            && n in t'.list.peers
            && if CheckPing(env.secret, time, p.ip6) then
                 t'.list.peers[n] == Confirmed(t.list.peers[n], p.source, now)
                    && os == Drain(t.list.peers[n].queue, p.source)
               else !t'.list.peers[n].trusted && forall i :: 0 <= i < |os| ==> os[i].Control?
  {
    hide Source, Destination, Drain, L.Without, Confirmed, CheckPing, Proper, SendBubble, IsBubble, Ping, CountBubble;
    var d := Drain(t.list.peers[n].queue, p.source);
    assert d + [] == d && [] + d == d;
  }

  /** The whole test. A client transmits to an unlisted native node N and goes on with any traffic
      that does not disturb the entry of N. The first packet sends a ping; its answer arrives from
      any endpoint. In the 30 ticks from sending, and only then, the client trusts N at that
      endpoint, and sends there, once each, exactly the packets for N that had fitted in the queue;
      a later answer makes nothing but control packets leave. */
  lemma RelayFound(env: Env, t: Tunnel, n: Addr, es: seq<Event>, p: Packet, now: Clock, time: Word32, alloc: bool,
                   junk: Peer)
    requires t.client && t.state.up && n.prefix != t.state.addr.prefix && !IsLinkLocal(n) && !IsMulticast(t.state.addr)
    requires AllLegal(es) && |es| > 0 && Toward(t, es[0], n) && AllUndisturbed(env, t, es, n)
    requires n !in t.list.peers && t.list.left > 0 && es[0].alloc
    requires FromRelay(t, p)
    ensures var out := Step(env, t, es[0]).1;
            && |out| == 1 && out[0].Control? && out[0].to == Endpoint(t.state.addr.server, TEREDO_PORT)
            && |out[0].packet| == 66
            && (Answers(p.ip6, out[0].packet) ==>
                  var (t', os) := Receive(env, Run(env, t, es), p, now, time, alloc, junk);
                  && n in t'.list.peers
                  && (t'.list.peers[n].trusted <==> Ticks(time, es[0].time) < 30)
                  && if t'.list.peers[n].trusted then
                       && t'.list.peers[n].mapping == p.source && t'.list.peers[n].queue == []
                       && os == SentTo(Fit(Offered(t, es, n)), p.source)
                     else forall i :: 0 <= i < |os| ==> os[i].Control?)
  {
    assert es[0].Tx?;
    hide Step, Receive, Run, Answers, Ping, Drain, Backlog, Fit, Offered, SentTo, AllUndisturbed, AllLegal, Toward,
         CheckPing, IsLinkLocal, IsMulticast;
    FirstPing(env, t, n, es[0]);
    RunWaits(env, t, n, es);
    if Answers(p.ip6, Ping(env.host, env.secret, es[0].time, t.state.addr, n)) {
      AnswerAdmitted(env, t, n, p, es[0].time, time);
      AnswerJudged(env, Run(env, t, es), n, p, now, time, alloc, junk);
      BacklogDrains(Fit(Offered(t, es, n)), p.source);
    }
  }
}

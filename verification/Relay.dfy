/** The tunnel object: the imperative transmission and reception paths, on the linked peer list. */
module Relay {
  import opened Bytes
  import opened Addresses
  import opened Encapsulation
  import opened Packets
  import opened Peers
  import opened LinkedPeerList
  import opened T = Tunnels
  import L = PeerLists

  class TeredoTunnel {
    const env: Env
    const client: bool
    const list: PeerList
    var state: State
    var rateLast: Clock
    var rateCount: nat
    /** Everything sent and every callback made, in order. */
    var out: seq<Out>

    /** Between calls the list is sound and not locked. */
    ghost predicate Valid()
      reads this, list, list.Nodes()
    {
      list.Valid() && !list.locked
    }

    ghost function View(): Tunnel
      requires Valid()
      reads this, list, list.Nodes()
    {
      Tunnel(client, state, list.View(), Limiter(rateLast, rateCount))
    }

    constructor (env: Env, client: bool, addr: Addr)
      ensures Valid() && out == []
      ensures View() == Tunnel(client, State(false, addr, 0, 0), L.Empty(env.maxPeers), Limiter(0, 1))
      ensures this.env == env && fresh(list)
    {
      this.env, this.client := env, client;
      list := new PeerList(env.maxPeers);
      state := State(false, addr, 0, 0);
      rateLast, rateCount := 0, 1;
      out := [];
    }

    method SendUnreach(now: Clock, code: Code, packet: seq<Byte>)
      modifies `rateLast, `rateCount, `out
      ensures var (m, ok) := Limit(Limiter(old(rateLast), old(rateCount)), now);
              && Limiter(rateLast, rateCount) == m
              && out == old(out) + if ok then [Unreachable(code, packet)] else []
    {
      if now != rateLast {
        rateLast := now;
        rateCount := 10;
      }
      if rateCount == 0 {
        return;
      }
      rateCount := rateCount - 1;
      out := out + [Unreachable(code, packet)];
    }

    /** Ends the use of an entry: the list is released. */
    method Leave(p: Node, e: Peer)
      requires list.Valid() && list.locked && p in list.Nodes()
      modifies list`locked, p`peer
      ensures Valid() && list.View() == L.Put(old(list.View()), p.key, e)
    {
      hide PeerList.Structure, IndexOf, PeersIn;
      list.SetPeer(p, e);
      list.Release();
    }

    /** `teredo_transmit` */
    method Transmit(packet: seq<Byte>, now: Clock, time: Word32, alloc: bool, junk: Peer)
      requires Valid() && |packet| >= 40
      modifies this, list, list.Nodes()
      ensures Valid() && fresh(list.Nodes() - old(list.Nodes()))
      ensures var (t, o) := T.Transmit(env, old(View()), packet, now, time, alloc, junk);
              View() == t && out == old(out) + o
    {
      hide PeerList.Structure, IndexOf, PeersIn, Destination, Source, TxEntry, TxOut, L.Lookup, L.Put, Limit,
           IsMulticast, IsGlobalUnicast;
      var dst := Destination(packet);
      if IsMulticast(dst) {
        return;
      }
      var s := state;
      if client && !s.up {
        SendUnreach(now, NoAddress, packet);
        return;
      }
      if dst.prefix != s.addr.prefix {
        if client {
          if Source(packet).prefix != s.addr.prefix {
            SendUnreach(now, AdminProhibited, packet);
            return;
          }
        } else {
          SendUnreach(now, NoAddress, packet);
          return;
        }
      } else if !IsGlobalUnicast(dst.server) {
        return;
      }
      var p, created := list.Lookup(dst, true, alloc, junk);
      if p == null {
        return;
      }
      list.PeerAt(p);
      TransmitTo(p, created, packet, now, time);
    }

    /** The rest of the transmission, with the list locked on entry and released on every path. */
    method TransmitTo(p: Node, created: bool, packet: seq<Byte>, now: Clock, time: Word32)
      requires list.Valid() && list.locked && p in list.Nodes()
      requires |packet| >= 40 && p.key == Destination(packet)
      modifies this, list`locked, p`peer
      ensures Valid()
      ensures var t := Tunnel(client, old(state), old(list.View()), Limiter(old(rateLast), old(rateCount)));
              var (e, act) := TxEntry(old(p.peer), created, p.key, t.state.addr.prefix, packet, now);
              var (t', o) := TxOut(env, t.(list := L.Put(t.list, p.key, e)), act, e.mapping, packet, now, time);
              View() == t' && out == old(out) + o
    {
      hide PeerList.Valid, PeerList.View, EnqueueOut, CountPing, CountBubble, BubbleToward, SendPing,
           IsValid, IsCone, Destination, Embedded, Limit;
      var dst, s := Destination(packet), state;
      var e := p.peer;
      if !created {
        if e.trusted && IsValid(e, now) {
          e := e.(lastTx := now);
          Leave(p, e);
          out := out + [Data(e.mapping, packet)];
          return;
        }
      } else {
        e := e.(trusted := false, bubbles := 0, pings := 0);
      }
      if dst.prefix != s.addr.prefix {
        if created {
          e := e.(mapping := Endpoint(0, 0));
        }
        PingPeer(p, e, packet, now, time);
      } else {
        if created {
          e := e.(mapping := Embedded(dst));
        }
        BubblePeer(p, e, packet, now);
      }
    }

    /** Client case 2: direct connectivity test of an untrusted non-Teredo node. */
    method PingPeer(p: Node, e: Peer, packet: seq<Byte>, now: Clock, time: Word32)
      requires list.Valid() && list.locked && p in list.Nodes() && |packet| >= 40
      modifies `out, `rateLast, `rateCount, list`locked, p`peer
      ensures Valid()
      ensures var t := Tunnel(client, state, old(list.View()), Limiter(old(rateLast), old(rateCount)));
              var (r, v) := CountPing(EnqueueOut(e, packet), now);
              var (t', o) := TxOut(env, t.(list := L.Put(t.list, p.key, r)), Pinged(v), r.mapping, packet, now, time);
              View() == t' && out == old(out) + o
    {
      hide PeerList.Valid, PeerList.View, EnqueueOut, CountPing, SendPing, Destination, Limit;
      var (r, v) := CountPing(EnqueueOut(e, packet), now);
      Leave(p, r);
      if v == Granted {
        out := out + SendPing(env, time, state.addr, Destination(packet));
      }
      if v == Never {
        SendUnreach(now, NoAddress, packet);
      }
    }

    /** Client case 5 and relay case 3: bubbles toward an untrusted Teredo client. */
    method BubblePeer(p: Node, e: Peer, packet: seq<Byte>, now: Clock)
      requires list.Valid() && list.locked && p in list.Nodes() && |packet| >= 40
      modifies `out, `rateLast, `rateCount, list`locked, p`peer
      ensures Valid()
      ensures var t := Tunnel(client, state, old(list.View()), Limiter(old(rateLast), old(rateCount)));
              var (r, v) := CountBubble(EnqueueOut(e, packet), now);
              var (t', o) := TxOut(env, t.(list := L.Put(t.list, p.key, r)), Bubbled(v), r.mapping, packet, now, 0);
              View() == t' && out == old(out) + o
    {
      hide PeerList.Valid, PeerList.View, EnqueueOut, CountBubble, BubbleToward, IsCone, Destination, Limit;
      var dst := Destination(packet);
      var (r, v) := CountBubble(EnqueueOut(e, packet), now);
      Leave(p, r);
      if v == Granted {
        if !IsCone(state.addr) {
          out := out + BubbleToward(env, dst, false);
        }
        out := out + BubbleToward(env, dst, true);
      } else if v == Never {
        SendUnreach(now, NoAddress, packet);
      }
    }

    /** `teredo_queue_emit` */
    method QueueEmit(q: seq<Queued>, at: Endpoint)
      modifies `out
      ensures out == old(out) + Drain(q, at)
    {
      for i := 0 to |q|
        invariant out + Drain(q[i..], at) == old(out) + Drain(q, at)
      {
        assert q[i..][1..] == q[i + 1..];
        if q[i].incoming {
          if q[i].from == at {
            out := out + [Deliver(q[i].data)];
          }
        } else {
          out := out + [Data(at, q[i].data)];
        }
      }
    }

    /** A reply makes the peer trusted at `at`; what waited for it is emitted once the list is released. */
    method Predecap(p: Node, at: Endpoint, now: Clock)
      requires list.Valid() && list.locked && p in list.Nodes()
      modifies `out, list`locked, p`peer
      ensures Valid()
      ensures list.View() == L.Put(old(list.View()), p.key, Confirmed(old(p.peer), at, now))
      ensures out == old(out) + Drain(old(p.peer.queue), at)
    {
      hide PeerList.Valid, PeerList.View, Drain;
      var e := p.peer.(trusted := true, mapping := at, lastRx := now, bubbles := 0, pings := 0);
      var q := e.queue;
      Leave(p, e.(queue := [], queueLeft := MAX_QUEUE_BYTES));
      if q != [] {
        QueueEmit(q, at);
      } else {
        assert Drain(q, at) == [] by { DrainEmpty(at); }
      }
    }

    /** Client case 6: the packet of an unproven sender waits while it is pinged. */
    method Hold(p: Node, created: bool, packet: Packet, now: Clock, time: Word32)
      requires list.Valid() && list.locked && p in list.Nodes()
      requires WellFormed(packet.ip6) && p.key == Source(packet.ip6)
      modifies `out, list`locked, p`peer
      ensures Valid()
      ensures var (r, v) := Suspected(old(p.peer), created, p.key, state.addr.prefix, Proper(packet.ip6),
         packet.source, now);
              && list.View() == L.Put(old(list.View()), p.key, r)
              && out == old(out) + if v == Granted then SendPing(env, time, state.addr, p.key) else []
    {
      hide PeerList.Valid, PeerList.View, EnqueueIn, CountPing, SendPing, Source, Proper;
      var e := p.peer;
      if created {
        e := Initial(e, p.key, state.addr.prefix);
      }
      e := EnqueueIn(e, Proper(packet.ip6), packet.source);
      e := e.(lastRx := now);
      var (r, v) := CountPing(e, now);
      Leave(p, r);
      if v == Granted {
        out := out + SendPing(env, time, state.addr, p.key);
      }
    }

    /** Reception once the packet is admitted. */
    method Process(packet: Packet, now: Clock, time: Word32, alloc: bool, junk: Peer)
      requires Valid() && WellFormed(packet.ip6)
      requires !client ==> Source(packet.ip6).prefix == state.addr.prefix
      modifies `out, list, list.Nodes()
      ensures Valid() && fresh(list.Nodes() - old(list.Nodes()))
      ensures var (t, o) := T.Process(env, old(View()), packet, now, time, alloc, junk);
              View() == t && out == old(out) + o
    {
      hide PeerList.Valid, PeerList.View, Source, Drain, Confirmed, Suspected, SendPing, Proper, L.Put, L.Without,
           Judge, T.Process;
      ghost var t := View();
      var p, _ := list.Lookup(Source(packet.ip6), false, alloc, junk);
      if p != null {
        list.PeerAt(p);
        ProcessListed(env, t, packet, now, time, alloc, junk);
        FromListed(p, packet, now, time);
      } else {
        FromUnlisted(packet, now, time, alloc, junk);
      }
    }

    /** Reception from a listed peer; the list is locked on entry and released on every path. */
    method FromListed(p: Node, packet: Packet, now: Clock, time: Word32)
      requires list.Valid() && list.locked && p in list.Nodes()
      requires WellFormed(packet.ip6) && p.key == Source(packet.ip6)
      requires !client ==> p.key.prefix == state.addr.prefix
      modifies `out, list`locked, p`peer
      ensures Valid()
      ensures var t := Tunnel(client, state, old(list.View()), Limiter(rateLast, rateCount));
              var e := old(p.peer);
              match Judge(env, client, state.addr.prefix, packet, time, Some(e))
              case Reject => View() == t && out == old(out)
              case Trust(deliver) =>
                && View() == t.(list := L.Put(t.list, p.key, Confirmed(e, packet.source, now)))
                && out == old(out) + (Drain(e.queue, packet.source)
                   + if deliver then [Deliver(Proper(packet.ip6))] else [])
              case Suspect =>
                var (r, v) := Suspected(e, false, p.key, state.addr.prefix, Proper(packet.ip6), packet.source, now);
                && View() == t.(list := L.Put(t.list, p.key, r))
                && out == old(out) + if v == Granted then SendPing(env, time, state.addr, p.key) else []
    {
      hide PeerList.Valid, PeerList.View, Source, Drain, Confirmed, Suspected, SendPing, CheckPing, CheckBubble,
           IsBubble, Embedded, Proper, PayloadLength, L.Put;
      var ip6 := packet.ip6;
      if p.peer.trusted && packet.source == p.peer.mapping {
        Predecap(p, packet.source, now);
        out := out + [Deliver(Proper(ip6))];
      } else if client && CheckPing(env.secret, time, ip6) {
        Predecap(p, packet.source, now);
      } else if p.key.prefix == state.addr.prefix {
        if Embedded(p.key) == packet.source || (IsBubble(ip6) && CheckBubble(env.secret, ip6)) {
          Predecap(p, packet.source, now);
          if !IsBubble(ip6) {
            out := out + [Deliver(Proper(ip6))];
          }
        } else {
          list.Release();
        }
      } else {
        Hold(p, false, packet, now, time);
      }
    }

    /** Reception from an unlisted peer: clients may list it, relays drop the packet. */
    method FromUnlisted(packet: Packet, now: Clock, time: Word32, alloc: bool, junk: Peer)
      requires Valid() && WellFormed(packet.ip6)
      requires Source(packet.ip6) !in list.View().peers
      requires !client ==> Source(packet.ip6).prefix == state.addr.prefix
      modifies `out, list, list.Nodes()
      ensures Valid() && fresh(list.Nodes() - old(list.Nodes()))
      ensures var (t, o) := T.Process(env, old(View()), packet, now, time, alloc, junk);
              View() == t && out == old(out) + o
    {
      hide PeerList.Valid, PeerList.View, Source, Drain, Confirmed, Suspected, SendPing, CheckBubble, IsBubble,
           Embedded, Proper, L.Put, L.Lookup, T.Process;
      ProcessUnlisted(env, View(), packet, now, time, alloc, junk);
      var ip6, src := packet.ip6, Source(packet.ip6);
      var teredo := src.prefix == state.addr.prefix;
      if teredo {
        if !(Embedded(src) == packet.source || (IsBubble(ip6) && CheckBubble(env.secret, ip6))) || !client {
          return;
        }
      }
      var p, created := list.Lookup(src, true, alloc, junk);
      if p == null {
        return;
      }
      list.PeerAt(p);
      if teredo {
        Predecap(p, packet.source, now);
        if !IsBubble(ip6) {
          out := out + [Deliver(Proper(ip6))];
        }
      } else {
        Hold(p, created, packet, now, time);
      }
    }

    /** `teredo_run_inner` */
    method RunInner(packet: Packet, now: Clock, time: Word32, alloc: bool, junk: Peer)
      requires Valid()
      modifies `out, list, list.Nodes()
      ensures Valid() && fresh(list.Nodes() - old(list.Nodes()))
      ensures var (t, o) := T.Receive(env, old(View()), packet, now, time, alloc, junk);
              View() == t && out == old(out) + o
    {
      hide PeerList.Valid, PeerList.View, Source, Destination, T.Process, SendBubble, IsBubble, Embedded,
           IsMulticast, IsLinkLocal, ForMaintenance;
      var ip6, s := packet.ip6, state;
      if |ip6| < 40 || ip6[0] / 16 != 6 || 40 + PayloadLength(ip6) as int > |ip6| {
        return;
      }
      var src, dst := Source(ip6), Destination(ip6);
      if client {
        if ForMaintenance(packet) {
          out := out + [Maintenance(packet)];
          return;
        }
        if !s.up {
          return;
        }
        if packet.source == Endpoint(s.addr.server, TEREDO_PORT) {
          var to := packet.orig;
          if to.ip == 0 && IsBubble(ip6) && src.prefix == s.addr.prefix {
            to := Embedded(src);
          }
          if to.ip != 0 {
            out := out + SendBubble(to, dst, src);
            if IsBubble(ip6) {
              return;
            }
          }
        }
        if IsLinkLocal(src) {
          return;
        }
      } else if src.prefix != s.addr.prefix {
        return;
      }
      if IsMulticast(dst) {
        return;
      }
      Process(packet, now, time, alloc, junk);
    }

    /** `teredo_state_change` */
    method StateChange(s: State)
      requires Valid()
      modifies `state, `out, list
      ensures Valid()
      ensures var (t, o) := T.StateChange(env, old(View()), s);
              View() == t && out == old(out) + o
    {
      hide PeerList.Structure, IndexOf, PeersIn;
      var previouslyUp := state.up;
      state := s;
      if state.up {
        list.Reset(env.maxPeers);
        out := out + [Up(state.addr, state.mtu)];
      } else if previouslyUp {
        out := out + [Down];
      }
    }
  }
}

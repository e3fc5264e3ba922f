/** What one event does to one peer entry, and what it makes the tunnel emit. */
module EntryHistory {
  import opened Bytes
  import opened Addresses
  import opened Encapsulation
  import opened Packets
  import opened Peers
  import opened Tunnels
  import L = PeerLists

  /** What a step does to the entry of `k`. */
  datatype Effect =
    | Untouched                                     // neither queue nor counters
    | Sent                                          // a packet went straight to the mapping
    | Tried(q: Queued, bubble: bool, v: Verdict)    // a packet offered to the queue, a bubble or ping counted
    | Replied(at: Endpoint, deliver: bool)          // trusted, queue drained; the packet itself delivered or not
    | Freed

  function TxEffect(env: Env, t: Tunnel, e: Event, k: Addr): Effect
    requires e.Tx? && Legal(e)
  {
    if Gate(t, e.packet) != Pass || Destination(e.packet) != k then Untouched
    else
      var (l, o) := L.Lookup(t.list, k, true, e.alloc, e.junk);
      if o == L.Missing then Untouched
      else match TxEntry(l.peers[k], o == L.Created, k, t.state.addr.prefix, e.packet, e.now).1
           case Direct => Sent
           case Pinged(v) => Tried(Queued(e.packet, Endpoint(0, 0), false), false, v)
           case Bubbled(v) => Tried(Queued(e.packet, Endpoint(0, 0), false), true, v)
  }

  function RxEffect(env: Env, t: Tunnel, e: Event, k: Addr): Effect
    requires e.Rx?
  {
    if !Reaches(t, e.from) || Source(e.from.ip6) != k then Untouched
    else
      var v := Judge(env, t.client, t.state.addr.prefix, e.from, e.time, EntryOf(t.list, k));
      var (l, o) := L.Lookup(t.list, k, v != Reject, e.alloc, e.junk);
      if v == Reject || o == L.Missing then Untouched
      else if v.Trust? then Replied(e.from.source, v.deliver)
      else Tried(Queued(Proper(e.from.ip6), e.from.source, true), false,
                 Suspected(l.peers[k], o == L.Created, k, t.state.addr.prefix, Proper(e.from.ip6), e.from.source,
                           e.now).1)
  }

  function EffectOn(env: Env, t: Tunnel, e: Event, k: Addr): Effect
    requires Legal(e)
  {
    match e
    case Tx(_, _, _, _, _) => TxEffect(env, t, e, k)
    case Rx(_, _, _, _, _) => RxEffect(env, t, e, k)
    case Change(s) => if s.up then Freed else Untouched
    case Sweep => if k in t.list.aged then Freed else Untouched
    case Configure(_, _) => Untouched
    case See(_) => Untouched
  }

  // --- the entry itself ------------------------------------------------------------------------------------

  /** Same counters, as far as they are ever read. */
  predicate SameCounters(p: Peer, q: Peer) {
    && p.bubbles == q.bubbles && p.pings == q.pings
    && (p.bubbles > 0 ==> p.lastTx == q.lastTx)
    && (p.pings > 0 ==> p.lastPing == q.lastPing)
  }

  const NEW_ENTRY := Peer([], MAX_QUEUE_BYTES, 0, 0, NOWHERE, false, 0, 0, 0)

  /** The entry of `k`; before it exists, one with nothing queued and nothing counted. */
  function Entry(t: Tunnel, k: Addr): Peer {
    if k in t.list.peers then t.list.peers[k]
    else NEW_ENTRY
  }

  function ClockOf(e: Event): Clock {
    if e.Tx? || e.Rx? then e.now else 0
  }

  /** The effect on the entry, in terms of the queue and counter operations. */
  ghost predicate Follows(p: Peer, eff: Effect, now: Clock, p': Peer) {
    match eff
    case Untouched => p'.queue == p.queue && p'.queueLeft == p.queueLeft && SameCounters(p', p)
    case Sent => p'.queue == p.queue && p'.queueLeft == p.queueLeft && SameCounters(p', Apply(p, Sending(now)))
    case Tried(q, bubble, v) =>
      && p'.queue == Enqueue(p, q).queue && p'.queueLeft == Enqueue(p, q).queueLeft
      && SameCounters(p', Apply(p, if bubble then Bubbling(now) else Pinging(now)))
      && v == (if bubble then CountBubble(p, now).1 else CountPing(p, now).1)
    case Replied(at, _) => p'.queue == [] && p'.queueLeft == MAX_QUEUE_BYTES && p'.bubbles == p'.pings == 0
                        && p'.trusted && p'.mapping == at
    case Freed => p'.queue == [] && p'.queueLeft == MAX_QUEUE_BYTES && p'.bubbles == p'.pings == 0
  }

  /** Counters that agree stay in agreement and take the same decisions. */
  lemma PingAlike(p: Peer, q: Peer, now: Clock)
    requires SameCounters(p, q)
    ensures SameCounters(CountPing(p, now).0, CountPing(q, now).0)
    ensures CountPing(p, now).1 == CountPing(q, now).1
  {
  }

  lemma BubbleAlike(p: Peer, q: Peer, now: Clock)
    requires SameCounters(p, q)
    ensures SameCounters(CountBubble(p, now).0, CountBubble(q, now).0)
    ensures CountBubble(p, now).1 == CountBubble(q, now).1
  {
    hide Elapsed;
  }

  lemma UseAlike(p: Peer, q: Peer, u: Use)
    requires SameCounters(p, q)
    ensures SameCounters(Apply(p, u), Apply(q, u))
    ensures u.Bubbling? ==> CountBubble(p, u.at).1 == CountBubble(q, u.at).1
    ensures u.Pinging? ==> CountPing(p, u.at).1 == CountPing(q, u.at).1
  {
    hide CountPing, CountBubble;
    PingAlike(p, q, u.at);
    BubbleAlike(p, q, u.at);
  }

  /** Counting leaves the queue alone. */
  lemma CountKeepsQueue(p: Peer, now: Clock)
    ensures CountPing(p, now).0.queue == p.queue && CountPing(p, now).0.queueLeft == p.queueLeft
    ensures CountBubble(p, now).0.queue == p.queue && CountBubble(p, now).0.queueLeft == p.queueLeft
  {
    hide Elapsed;
  }

  lemma TriedFollows(p: Peer, q: Queued, bubble: bool, now: Clock, before: Peer)
    requires p.queue == Enqueue(before, q).queue && p.queueLeft == Enqueue(before, q).queueLeft
    requires SameCounters(p, before)
    ensures var (r, v) := if bubble then CountBubble(p, now) else CountPing(p, now);
            Follows(before, Tried(q, bubble, v), now, r)
  {
    hide CountPing, CountBubble, Enqueue, SameCounters;
    CountKeepsQueue(p, now);
    UseAlike(p, before, if bubble then Bubbling(now) else Pinging(now));
  }

  /** An entry as it is before the first packet is queued: as found, or as initialised. */
  ghost predicate Starts(p: Peer, created: bool, before: Peer) {
    if created then p.queue == [] && p.queueLeft == MAX_QUEUE_BYTES && before == NEW_ENTRY else before == p
  }

  lemma StartAlike(p: Peer, created: bool, k: Addr, prefix: Word32, before: Peer)
    requires Starts(p, created, before)
    ensures var q := if created then Initial(p, k, prefix) else p;
            q.queue == before.queue && q.queueLeft == before.queueLeft && SameCounters(q, before)
  {
    hide Embedded;
  }

  lemma EnqueueAlike(p: Peer, before: Peer, q: Queued)
    requires p.queue == before.queue && p.queueLeft == before.queueLeft && SameCounters(p, before)
    ensures Enqueue(p, q).queue == Enqueue(before, q).queue && Enqueue(p, q).queueLeft == Enqueue(before, q).queueLeft
    ensures SameCounters(Enqueue(p, q), before)
  {
  }

  lemma TxFollows(p: Peer, created: bool, k: Addr, prefix: Word32, packet: seq<Byte>, now: Clock, before: Peer)
    requires Starts(p, created, before)
    ensures var (r, act) := TxEntry(p, created, k, prefix, packet, now);
            match act
            case Direct => Follows(before, Sent, now, r)
            case Pinged(v) => Follows(before, Tried(Queued(packet, Endpoint(0, 0), false), false, v), now, r)
            case Bubbled(v) => Follows(before, Tried(Queued(packet, Endpoint(0, 0), false), true, v), now, r)
  {
    if !created && p.trusted && IsValid(p, now) {
      return;
    }
    hide CountPing, CountBubble, Enqueue, SameCounters, Initial, Follows, IsValid;
    var q, x := if created then Initial(p, k, prefix) else p, Queued(packet, Endpoint(0, 0), false);
    StartAlike(p, created, k, prefix, before);
    EnqueueAlike(q, before, x);
    TriedFollows(Enqueue(q, x), x, k.prefix == prefix, now, before);
  }

  lemma SuspectedFollows(p: Peer, created: bool, k: Addr, prefix: Word32, d: seq<Byte>, at: Endpoint, now: Clock,
                         before: Peer)
    requires Starts(p, created, before)
    ensures var (r, v) := Suspected(p, created, k, prefix, d, at, now);
            Follows(before, Tried(Queued(d, at, true), false, v), now, r)
  {
    hide CountPing, Enqueue, Initial, Follows;
    var q, x := if created then Initial(p, k, prefix) else p, Queued(d, at, true);
    StartAlike(p, created, k, prefix, before);
    EnqueueAlike(q, before, x);
    TriedFollows(Enqueue(q, x).(lastRx := now), x, false, now, before);
  }

  lemma TxStep(env: Env, t: Tunnel, e: Event, k: Addr)
    requires e.Tx? && Legal(e)
    ensures Follows(Entry(t, k), EffectOn(env, t, e, k), e.now, Entry(Step(env, t, e).0, k))
    ensures EffectOn(env, t, e, k) != Freed
  {
    hide Destination, L.Without, Enqueue, CountPing, CountBubble, TxEntry, Gate, Transmit;
    TransmitKeeps(env, t, e.packet, e.now, e.time, e.alloc, e.junk);
    if Gate(t, e.packet) == Pass {
      var dst := Destination(e.packet);
      var (l, o) := L.Lookup(t.list, dst, true, e.alloc, e.junk);
      if o != L.Missing {
        TxFollows(l.peers[dst], o == L.Created, dst, t.state.addr.prefix, e.packet, e.now, Entry(t, dst));
      }
    }
  }

  lemma RxStep(env: Env, t: Tunnel, e: Event, k: Addr)
    requires e.Rx?
    ensures Follows(Entry(t, k), EffectOn(env, t, e, k), e.now, Entry(Step(env, t, e).0, k))
    ensures EffectOn(env, t, e, k) != Freed
  {
    hide Source, Destination, PayloadLength, L.Without, Judge, Suspected, Drain, Proper, IsBubble, SendPing,
         ReplyBubble, IsMulticast, IsLinkLocal, Rendezvous, ForMaintenance, Enqueue, CountPing, CountBubble;
    if Reaches(t, e.from) {
      var src := Source(e.from.ip6);
      var v := Judge(env, t.client, t.state.addr.prefix, e.from, e.time, EntryOf(t.list, src));
      var (l, o) := L.Lookup(t.list, src, v != Reject, e.alloc, e.junk);
      if v == Suspect && o != L.Missing {
        SuspectedFollows(l.peers[src], o == L.Created, src, t.state.addr.prefix, Proper(e.from.ip6), e.from.source,
                         e.now, Entry(t, src));
      }
    }
  }

  /** Every step changes an entry by the effect computed for it, and by nothing else. */
  lemma StepFollows(env: Env, t: Tunnel, e: Event, k: Addr)
    requires Legal(e)
    ensures Follows(Entry(t, k), EffectOn(env, t, e, k), ClockOf(e), Entry(Step(env, t, e).0, k))
  {
    hide Transmit, Receive, TxEffect, RxEffect, Enqueue, CountPing, CountBubble;
    match e {
      case Tx(_, _, _, _, _) => TxStep(env, t, e, k);
      case Rx(_, _, _, _, _) => RxStep(env, t, e, k);
      case Change(_) =>
      case Sweep =>
      case Configure(_, _) =>
      case See(_) =>
    }
  }

  // --- what leaves the tunnel -------------------------------------------------------------------------------

  /** Everything a transmission sends is told by its effect on the entry of the destination. */
  lemma TransmissionOutputs(env: Env, t: Tunnel, e: Event)
    requires e.Tx? && Legal(e)
    ensures var k, os := Destination(e.packet), Step(env, t, e).1;
            match EffectOn(env, t, e, k)
            case Sent => os == [Data(Entry(t, k).mapping, e.packet)]
            case Tried(_, true, Granted) =>
              os == (if IsCone(t.state.addr) then [] else BubbleToward(env, k, false)) + BubbleToward(env, k, true)
            case Tried(_, false, Granted) => os == SendPing(env, e.time, t.state.addr, k)
            case _ => |os| <= 1 && forall o :: o in os ==> o.Unreachable?
  {
    hide Destination, Source, L.Without, Enqueue, CountPing, CountBubble, Limit, IsMulticast, IsGlobalUnicast,
         SendPing, BubbleToward, Elapsed;
  }

  /** The bubble that a client sends because its server relayed a packet to it, before anything else. */
  function FirstReply(t: Tunnel, p: Packet): seq<Out> {
    if WellFormed(p.ip6) && t.client && !ForMaintenance(p) && t.state.up then ReplyBubble(t.state, p) else []
  }

  /** Everything a reception emits is told by its effect on the entry of the source: a reply drains
      the queue once, newest first, toward the proven endpoint, and an unproven packet sends a ping
      exactly when one is granted. */
  lemma ReceptionOutputs(env: Env, t: Tunnel, e: Event)
    requires e.Rx?
    ensures var os := Step(env, t, e).1;
            if WellFormed(e.from.ip6) && t.client && ForMaintenance(e.from) then os == [Maintenance(e.from)]
            else if !Reaches(t, e.from) then os == FirstReply(t, e.from)
            else
              var k := Source(e.from.ip6);
              os == FirstReply(t, e.from) + match EffectOn(env, t, e, k)
                                            case Replied(at, deliver) =>
                                              Drain(Entry(t, k).queue, at)
                                                 + (if deliver then [Deliver(Proper(e.from.ip6))] else [])
                                            case Tried(_, _, Granted) => SendPing(env, e.time, t.state.addr, k)
                                            case _ => []
  {
    hide Source, Destination, PayloadLength, L.Without, Judge, Suspected, Proper, IsBubble, SendPing, ReplyBubble,
         IsMulticast, IsLinkLocal, Embedded, ForMaintenance, Drain, Rendezvous, Confirmed;
    if Reaches(t, e.from) {
      DrainEmpty(e.from.source);
    }
  }

  lemma ReachesIs(t: Tunnel, p: Packet)
    requires Reaches(t, p)
    ensures WellFormed(p.ip6) && !(t.client && ForMaintenance(p))
  {
  }

  /** An event about another peer leaves an entry alone. */
  lemma Elsewhere(env: Env, t: Tunnel, e: Event, k: Addr)
    requires Legal(e)
    requires if e.Tx? then Destination(e.packet) != k else e.Rx? && (Reaches(t, e.from) ==> Source(e.from.ip6) != k)
    ensures EffectOn(env, t, e, k) == Untouched
  {
    hide Source, Destination, Reaches, Gate, L.Lookup, TxEntry, Judge, Suspected;
  }

  /** Bubbles and pings are control packets. */
  lemma ControlKinds(env: Env, time: Word32, src: Addr, dst: Addr)
    ensures forall o :: o in SendPing(env, time, src, dst) ==> o.Control?
    ensures forall o :: o in BubbleToward(env, dst, false) ==> o.Control?
    ensures forall o :: o in BubbleToward(env, dst, true) ==> o.Control?
  {
    hide Ping, Bubble, BubbleSource, IsGlobalUnicast, Embedded;
  }
}

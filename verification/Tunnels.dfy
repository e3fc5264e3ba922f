/** What a relay or client does with packets: decisions and their effect on the peer list
    (sections 5.2.3, 5.2.4, 5.2.9, 5.4.1 and 5.4.2 of RFC 4380). */
module Tunnels {
  import opened Bytes
  import opened Addresses
  import opened Encapsulation
  import opened Packets
  import opened Security
  import opened Peers
  import L = PeerLists

  /** `teredo_state` */
  datatype State = State(up: bool, addr: Addr, mtu: Word16, ipv4: Word32)

  /** ICMPv6 rate limiter. */
  datatype Limiter = Limiter(last: Clock, count: nat)

  datatype Tunnel = Tunnel(client: bool, state: State, list: L.List, limiter: Limiter)

  /** Host byte order, keyed hash and capacity of the peer list. */
  datatype Env = Env(host: Endian, secret: Secret, maxPeers: nat)

  datatype Code = NoAddress | AdminProhibited

  datatype Out =
    | Data(to: Endpoint, packet: seq<Byte>)       // a user packet, encapsulated
    | Control(to: Endpoint, packet: seq<Byte>)    // a bubble or a ping
    | Deliver(packet: seq<Byte>)                  // the reception callback
    | Unreachable(code: Code, packet: seq<Byte>)  // the ICMPv6 error callback
    | Up(addr: Addr, mtu: Word16)                 // the state callbacks
    | Down
    | Maintenance(from: Packet)                   // handed to the maintenance procedure

  // --- sending ---------------------------------------------------------------------------------------

  /** `teredo_send_bubble` */
  function SendBubble(to: Endpoint, src: Addr, dst: Addr): seq<Out> {
    if IsGlobalUnicast(to.ip) then [Control(to, Bubble(src, dst))] else []
  }

  /** `SendBubbleFromDst` */
  function BubbleToward(env: Env, dst: Addr, indirect: bool): seq<Out> {
    SendBubble(if indirect then Endpoint(dst.server, TEREDO_PORT) else Embedded(dst),
               BubbleSource(env.secret, dst), dst)
  }

  /** `SendPing`: through our own server. */
  function SendPing(env: Env, time: Word32, src: Addr, dst: Addr): seq<Out> {
    [Control(Endpoint(src.server, TEREDO_PORT), Ping(env.host, env.secret, time, src, dst))]
  }

  /** `teredo_send_unreach`: at most 10 errors per clock value. */
  function Limit(l: Limiter, now: Clock): (Limiter, bool) {
    var m := if now != l.last then Limiter(now, 10) else l;
    if m.count == 0 then (m, false) else (m.(count := m.count - 1), true)
  }

  function Unreach(t: Tunnel, now: Clock, code: Code, packet: seq<Byte>): (Tunnel, seq<Out>) {
    var (m, ok) := Limit(t.limiter, now);
    (t.(limiter := m), if ok then [Unreachable(code, packet)] else [])
  }

  // --- transmission ------------------------------------------------------------------------------------

  /** What can be said of a packet to transmit before its peer is looked up. */
  datatype TxGate = Pass | Ignore | Refuse(code: Code)

  function Gate(t: Tunnel, packet: seq<Byte>): TxGate
    requires |packet| >= 40
  {
    var src, dst, s := Source(packet), Destination(packet), t.state;
    if IsMulticast(dst) then Ignore
    else if t.client && !s.up then Refuse(NoAddress)
    else if dst.prefix != s.addr.prefix then
      if !t.client then Refuse(NoAddress)
      else if src.prefix != s.addr.prefix then Refuse(AdminProhibited)
      else Pass
    else if !IsGlobalUnicast(dst.server) then Ignore
    else Pass
  }

  /** What a transmission does with the entry of its destination. */
  datatype TxAct = Direct | Pinged(v: Verdict) | Bubbled(v: Verdict)

  /** A new entry: not trusted, mapped to what its Teredo address embeds. */
  function Initial(p: Peer, key: Addr, prefix: Word32): Peer {
    p.(trusted := false, bubbles := 0, pings := 0,
       mapping := if key.prefix == prefix then Embedded(key) else NOWHERE)
  }

  function TxEntry(p: Peer, created: bool, dst: Addr, prefix: Word32, packet: seq<Byte>, now: Clock): (Peer, TxAct) {
    if !created && p.trusted && IsValid(p, now) then (p.(lastTx := now), Direct)
    else
      var q := EnqueueOut(if created then Initial(p, dst, prefix) else p, packet);
      if dst.prefix != prefix then
        var (r, v) := CountPing(q, now);
        (r, Pinged(v))
      else
        var (r, v) := CountBubble(q, now);
        (r, Bubbled(v))
  }

  /** What is sent for it. */
  function TxOut(env: Env, t: Tunnel, act: TxAct, mapping: Endpoint, packet: seq<Byte>, now: Clock, time: Word32)
    : (Tunnel, seq<Out>)
    requires |packet| >= 40
  {
    var dst, s := Destination(packet), t.state;
    match act
    case Direct => (t, [Data(mapping, packet)])
    case Pinged(Granted) => (t, SendPing(env, time, s.addr, dst))
    case Bubbled(Granted) =>
      (t, (if IsCone(s.addr) then [] else BubbleToward(env, dst, false)) + BubbleToward(env, dst, true))
    case Pinged(Never) => Unreach(t, now, NoAddress, packet)
    case Bubbled(Never) => Unreach(t, now, NoAddress, packet)
    case _ => (t, [])
  }

  /** Sending does not touch the list. */
  lemma TxOutKeeps(env: Env, t: Tunnel, act: TxAct, mapping: Endpoint, packet: seq<Byte>, now: Clock, time: Word32)
    requires |packet| >= 40
    ensures var t' := TxOut(env, t, act, mapping, packet, now, time).0;
            t'.list == t.list && t'.state == t.state && t'.client == t.client
  {
    hide Destination, Limit, SendPing, BubbleToward, IsCone;
  }

  /** `teredo_transmit` */
  function Transmit(env: Env, t: Tunnel, packet: seq<Byte>, now: Clock, time: Word32, alloc: bool, junk: Peer)
    : (Tunnel, seq<Out>)
    requires |packet| >= 40
  {
    match Gate(t, packet)
    case Ignore => (t, [])
    case Refuse(code) => Unreach(t, now, code, packet)
    case Pass =>
      var dst := Destination(packet);
      var (l, o) := L.Lookup(t.list, dst, true, alloc, junk);
      if o == L.Missing then (t.(list := l), [])
      else
        var (p, act) := TxEntry(l.peers[dst], o == L.Created, dst, t.state.addr.prefix, packet, now);
        TxOut(env, t.(list := L.Put(l, dst, p)), act, p.mapping, packet, now, time)
  }

  /** The list after a transmission: nothing, or an entry looked up and updated. */
  lemma TransmitKeeps(env: Env, t: Tunnel, packet: seq<Byte>, now: Clock, time: Word32, alloc: bool, junk: Peer)
    requires |packet| >= 40
    ensures var t' := Transmit(env, t, packet, now, time, alloc, junk).0;
            && t'.state == t.state && t'.client == t.client
            && if Gate(t, packet) != Pass then t'.list == t.list
               else
                 var dst := Destination(packet);
                 var (l, o) := L.Lookup(t.list, dst, true, alloc, junk);
                 if o == L.Missing then t'.list == l
                 else
                   var p := TxEntry(l.peers[dst], o == L.Created, dst, t.state.addr.prefix, packet, now).0;
                   t'.list == L.Put(l, dst, p)
  {
    hide Destination, Gate, L.Without, TxEntry, L.Put, TxOut, Limit;
    if Gate(t, packet) == Pass {
      var dst := Destination(packet);
      var (l, o) := L.Lookup(t.list, dst, true, alloc, junk);
      if o != L.Missing {
        var (p, act) := TxEntry(l.peers[dst], o == L.Created, dst, t.state.addr.prefix, packet, now);
        TxOutKeeps(env, t.(list := L.Put(l, dst, p)), act, p.mapping, packet, now, time);
      }
    }
  }

  // --- reception -----------------------------------------------------------------------------------------

  /** The IPv6 packet proper, without trailing bytes. */
  function Proper(ip6: seq<Byte>): (b: seq<Byte>)
    requires WellFormed(ip6)
    ensures |b| >= 40
  {
    ip6[..40 + PayloadLength(ip6) as int]
  }

  lemma ProperSource(ip6: seq<Byte>)
    requires WellFormed(ip6)
    ensures Source(Proper(ip6)) == Source(ip6)
  {
    SliceOfSlice(ip6, 0, |Proper(ip6)|, 8, 24);
    assert Proper(ip6) == ip6[0..|Proper(ip6)|];
  }

  /** The packets `teredo_maintenance_process` takes. */
  predicate ForMaintenance(p: Packet)
    requires |p.ip6| >= 40
  {
    p.source.port == TEREDO_PORT && p.auth.Some? && Destination(p.ip6) == RESTRICT
  }

  /** The endpoint that a packet from our server asks us to send a bubble to; all zeros if none. */
  function Rendezvous(s: State, p: Packet): Endpoint
    requires |p.ip6| >= 40
  {
    if p.source != Endpoint(s.addr.server, TEREDO_PORT) then NOWHERE
    else if p.orig.ip == 0 && IsBubble(p.ip6) && Source(p.ip6).prefix == s.addr.prefix then Embedded(Source(p.ip6))
    else p.orig
  }

  function ReplyBubble(s: State, p: Packet): seq<Out>
    requires |p.ip6| >= 40
  {
    var to := Rendezvous(s, p);
    if to.ip == 0 then [] else SendBubble(to, Destination(p.ip6), Source(p.ip6))
  }

  /** Whether reception goes on to the peer list. */
  predicate Admitted(t: Tunnel, p: Packet)
    requires |p.ip6| >= 40
  {
    && !IsMulticast(Destination(p.ip6))
    && if t.client then
         && !IsLinkLocal(Source(p.ip6))
         && !(Rendezvous(t.state, p).ip != 0 && IsBubble(p.ip6))
       else
         Source(p.ip6).prefix == t.state.addr.prefix
  }

  /** Reception gets as far as the peer list. */
  predicate Reaches(t: Tunnel, p: Packet) {
    && WellFormed(p.ip6)
    && (t.client ==> !ForMaintenance(p) && t.state.up)
    && Admitted(t, p)
  }

  /** A packet that proves that its source can be reached at the endpoint it came from. */
  predicate Proves(env: Env, p: Packet)
    requires |p.ip6| >= 40
  {
    Embedded(Source(p.ip6)) == p.source || (IsBubble(p.ip6) && CheckBubble(env.secret, p.ip6))
  }

  datatype RxVerdict = Reject | Trust(deliver: bool) | Suspect

  function Judge(env: Env, client: bool, prefix: Word32, p: Packet, time: Word32, entry: Option<Peer>): RxVerdict
    requires WellFormed(p.ip6)
  {
    if entry.Some? && entry.value.trusted && entry.value.mapping == p.source then Trust(true)
    else if entry.Some? && client && CheckPing(env.secret, time, p.ip6) then Trust(false)
    else if Source(p.ip6).prefix == prefix then
      if Proves(env, p) && (entry.Some? || client) then Trust(!IsBubble(p.ip6)) else Reject
    else Suspect
  }

  /** The entry after a reply: trusted at `at`, counters and queue empty. */
  function Confirmed(p: Peer, at: Endpoint, now: Clock): (r: Peer)
    ensures QueueInv(r)
  {
    p.(trusted := true, mapping := at, lastRx := now, bubbles := 0, pings := 0, queue := [],
       queueLeft := MAX_QUEUE_BYTES)
  }

  /** `teredo_queue_emit`: newest first; incoming packets only if they came from `at`. */
  function Drain(q: seq<Queued>, at: Endpoint): seq<Out> {
    if |q| == 0 then []
    else (if !q[0].incoming then [Data(at, q[0].data)]
          else if q[0].from == at then [Deliver(q[0].data)]
          else []) + Drain(q[1..], at)
  }

  lemma DrainEmpty(at: Endpoint)
    ensures Drain([], at) == []
  {
  }

  /** The entry of an unproven sender: its packet waits for a ping to be answered. */
  function Suspected(p: Peer, created: bool, key: Addr, prefix: Word32, packet: seq<Byte>, at: Endpoint, now: Clock)
    : (Peer, Verdict)
  {
    var q := if created then Initial(p, key, prefix) else p;
    CountPing(EnqueueIn(q, packet, at).(lastRx := now), now)
  }

  function EntryOf(l: L.List, k: Addr): Option<Peer> {
    if k in l.peers then Some(l.peers[k]) else None
  }

  /** Reception once admitted. */
  function Process(env: Env, t: Tunnel, p: Packet, now: Clock, time: Word32, alloc: bool, junk: Peer)
    : (Tunnel, seq<Out>)
    requires WellFormed(p.ip6)
  {
    var src, packet := Source(p.ip6), Proper(p.ip6);
    var v := Judge(env, t.client, t.state.addr.prefix, p, time, EntryOf(t.list, src));
    var (l, o) := L.Lookup(t.list, src, v != Reject, alloc, junk);
    if v == Reject || o == L.Missing then (t.(list := l), [])
    else
      var e := l.peers[src];
      match v
      case Trust(deliver) =>
        (t.(list := L.Put(l, src, Confirmed(e, p.source, now))),
         Drain(e.queue, p.source) + if deliver then [Deliver(packet)] else [])
      case Suspect =>
        var (r, ping) := Suspected(e, o == L.Created, src, t.state.addr.prefix, packet, p.source, now);
        (t.(list := L.Put(l, src, r)), if ping == Granted then SendPing(env, time, t.state.addr, src) else [])
  }

  /** Reception from a listed peer. */
  lemma ProcessListed(env: Env, t: Tunnel, p: Packet, now: Clock, time: Word32, alloc: bool, junk: Peer)
    requires WellFormed(p.ip6) && Source(p.ip6) in t.list.peers
    ensures var src := Source(p.ip6);
            var l, e := L.Lookup(t.list, src, false, alloc, junk).0, t.list.peers[src];
            && src in l.peers && l.peers[src] == e
            && Process(env, t, p, now, time, alloc, junk)
               == match Judge(env, t.client, t.state.addr.prefix, p, time, Some(e))
                  case Reject => (t.(list := l), [])
                  case Trust(deliver) => (t.(list := L.Put(l, src, Confirmed(e, p.source, now))),
                                          Drain(e.queue, p.source) + if deliver then [Deliver(Proper(p.ip6))] else [])
                  case Suspect =>
                    var (r, v) := Suspected(e, false, src, t.state.addr.prefix, Proper(p.ip6), p.source, now);
                    (t.(list := L.Put(l, src, r)), if v == Granted then SendPing(env, time, t.state.addr, src) else [])
  {
    hide Source, Judge, Proper, Drain, Confirmed, Suspected, SendPing, L.Without, L.Put;
  }

  /** Reception from an unlisted peer: a client may list it, a relay does not. */
  lemma ProcessUnlisted(env: Env, t: Tunnel, p: Packet, now: Clock, time: Word32, alloc: bool, junk: Peer)
    requires WellFormed(p.ip6) && Source(p.ip6) !in t.list.peers
    ensures var src := Source(p.ip6);
            var teredo, (l, o) := src.prefix == t.state.addr.prefix, L.Lookup(t.list, src, true, alloc, junk);
            Process(env, t, p, now, time, alloc, junk)
            == if teredo && !(Proves(env, p) && t.client) then (t, [])
               else if o == L.Missing then (t.(list := l), [])
               else if teredo then
                 (t.(list := L.Put(l, src, Confirmed(l.peers[src], p.source, now))),
                  Drain(l.peers[src].queue, p.source) + if IsBubble(p.ip6) then [] else [Deliver(Proper(p.ip6))])
               else
                 var (r, v) := Suspected(l.peers[src], o == L.Created, src, t.state.addr.prefix, Proper(p.ip6),
                                         p.source, now);
                 (t.(list := L.Put(l, src, r)), if v == Granted then SendPing(env, time, t.state.addr, src) else [])
  {
    hide Source, Proves, IsBubble, CheckPing, Proper, Drain, Confirmed, Suspected, SendPing, L.Without, L.Put;
  }

  /** `teredo_run_inner` */
  function Receive(env: Env, t: Tunnel, p: Packet, now: Clock, time: Word32, alloc: bool, junk: Peer)
    : (Tunnel, seq<Out>)
  {
    if !WellFormed(p.ip6) then (t, [])
    else if t.client && ForMaintenance(p) then (t, [Maintenance(p)])
    else if t.client && !t.state.up then (t, [])
    else
      var reply := if t.client then ReplyBubble(t.state, p) else [];
      if !Admitted(t, p) then (t, reply)
      else
        var (t', out) := Process(env, t, p, now, time, alloc, junk);
        (t', reply + out)
  }

  // --- state changes -----------------------------------------------------------------------------------------

  /** `teredo_state_change` */
  function StateChange(env: Env, t: Tunnel, s: State): (Tunnel, seq<Out>) {
    if s.up then (t.(state := s, list := L.Empty(env.maxPeers)), [Up(s.addr, s.mtu)])
    else (t.(state := s), if t.state.up then [Down] else [])
  }

  // --- runs ------------------------------------------------------------------------------------------------------

  datatype Event =
    | Tx(packet: seq<Byte>, now: Clock, time: Word32, alloc: bool, junk: Peer)
    | Rx(from: Packet, now: Clock, time: Word32, alloc: bool, junk: Peer)
    | Change(state: State)
    | Sweep
    | Configure(prefix: Word32, flags: Word16)  // relays only
    | See(state: State)                         // the calls that follow work with this snapshot of the state

  predicate Legal(e: Event) {
    e.Tx? ==> |e.packet| >= 40
  }

  function Step(env: Env, t: Tunnel, e: Event): (Tunnel, seq<Out>)
    requires Legal(e)
  {
    match e
    case Tx(packet, now, time, alloc, junk) => Transmit(env, t, packet, now, time, alloc, junk)
    case Rx(from, now, time, alloc, junk) => Receive(env, t, from, now, time, alloc, junk)
    case Change(s) => StateChange(env, t, s)
    case Sweep => (t.(list := L.Collect(t.list)), [])
    case Configure(prefix, flags) =>
      if t.client then (t, []) else (t.(state := t.state.(addr := t.state.addr.(prefix := prefix, flags := flags))), [])
    case See(s) => (t.(state := s), [])
  }

  predicate AllLegal(es: seq<Event>) {
    forall i :: 0 <= i < |es| ==> Legal(es[i])
  }

  function Run(env: Env, t: Tunnel, es: seq<Event>): Tunnel
    requires AllLegal(es)
  {
    if |es| == 0 then t else Step(env, Run(env, t, es[..|es| - 1]), es[|es| - 1]).0
  }

  /** What the last event of a run makes it emit. */
  function LastOut(env: Env, t: Tunnel, es: seq<Event>): seq<Out>
    requires AllLegal(es) && |es| > 0
  {
    Step(env, Run(env, t, es[..|es| - 1]), es[|es| - 1]).1
  }
}

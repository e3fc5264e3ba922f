/** Trust safety over every run: user packets only go to, and only come from, proven endpoints. */
module TrustSafety {
  import opened Bytes
  import opened Addresses
  import opened Encapsulation
  import opened Packets
  import opened Peers
  import opened Tunnels
  import L = PeerLists

  /** An event, and the tunnel it found. */
  datatype Past = Past(before: Tunnel, event: Event)

  function History(env: Env, t: Tunnel, es: seq<Event>): seq<Past>
    requires AllLegal(es)
  {
    seq(|es|, i requires 0 <= i < |es| => Past(Run(env, t, es[..i]), es[i]))
  }

  /** The event is the reception, from `at`, of a packet with source `k` that the tunnel did not drop
      and that, either at a client, passes the ping check, or comes from a Teredo peer and matches
      what its address embeds or passes the bubble check. */
  predicate Vouches(env: Env, h: Past, k: Addr, at: Endpoint) {
    var t, e := h.before, h.event;
    && e.Rx? && Reaches(t, e.from) && Source(e.from.ip6) == k && e.from.source == at
    && ((t.client && CheckPing(env.secret, e.time, e.from.ip6))
        || (k.prefix == t.state.addr.prefix && Proves(env, e.from)))
  }

  ghost predicate Vouched(env: Env, hs: seq<Past>, k: Addr, at: Endpoint) {
    exists i :: 0 <= i < |hs| && Vouches(env, hs[i], k, at)
  }

  /** The event is the reception of `d` from `at`. */
  predicate Brings(e: Event, d: seq<Byte>, k: Addr, at: Endpoint) {
    e.Rx? && WellFormed(e.from.ip6) && Source(e.from.ip6) == k && e.from.source == at && Proper(e.from.ip6) == d
  }

  ghost predicate Heard(hs: seq<Past>, d: seq<Byte>, k: Addr, at: Endpoint) {
    exists i :: 0 <= i < |hs| && Brings(hs[i].event, d, k, at)
  }

  /** The event is the user's request to send `d` to `k`. */
  predicate Asks(e: Event, d: seq<Byte>, k: Addr) {
    e.Tx? && |e.packet| >= 40 && e.packet == d && Destination(d) == k
  }

  ghost predicate Asked(hs: seq<Past>, d: seq<Byte>, k: Addr) {
    exists i :: 0 <= i < |hs| && Asks(hs[i].event, d, k)
  }

  ghost predicate QueuedOk(hs: seq<Past>, k: Addr, q: Queued) {
    if q.incoming then Heard(hs, q.data, k, q.from) else Asked(hs, q.data, k)
  }

  ghost predicate QueueOk(hs: seq<Past>, k: Addr, q: seq<Queued>) {
    forall i :: 0 <= i < |q| ==> QueuedOk(hs, k, q[i])
  }

  ghost predicate EntryOk(env: Env, hs: seq<Past>, k: Addr, p: Peer) {
    (p.trusted ==> Vouched(env, hs, k, p.mapping)) && QueueOk(hs, k, p.queue)
  }

  /** Trust has a witness in the past, and so has every queued packet. */
  ghost predicate Inv(env: Env, hs: seq<Past>, peers: map<Addr, Peer>) {
    forall k :: k in peers ==> EntryOk(env, hs, k, peers[k])
  }

  /** User packets leave for a proven endpoint of their destination, and are delivered only when
      they came from a proven endpoint of their source. */
  ghost predicate OutOk(env: Env, hs: seq<Past>, o: Out) {
    match o
    case Data(to, d) =>
      |d| >= 40 && Asked(hs, d, Destination(d)) && Vouched(env, hs, Destination(d), to)
    case Deliver(d) =>
      |d| >= 40 && exists at :: Heard(hs, d, Source(d), at) && Vouched(env, hs, Source(d), at)
    case _ => true
  }

  ghost predicate OutsOk(env: Env, hs: seq<Past>, os: seq<Out>) {
    forall i :: 0 <= i < |os| ==> OutOk(env, hs, os[i])
  }

  lemma VouchedMore(env: Env, hs: seq<Past>, h: Past, k: Addr, at: Endpoint)
    requires Vouched(env, hs, k, at) || Vouches(env, h, k, at)
    ensures Vouched(env, hs + [h], k, at)
  {
    var more := hs + [h];
    if Vouched(env, hs, k, at) {
      var i :| 0 <= i < |hs| && Vouches(env, hs[i], k, at);
      assert more[i] == hs[i];
    } else {
      assert more[|hs|] == h;
    }
  }

  lemma QueuedMore(hs: seq<Past>, h: Past, k: Addr, q: Queued)
    requires QueuedOk(hs, k, q) || (if q.incoming then Brings(h.event, q.data, k, q.from) else Asks(h.event, q.data, k))
    ensures QueuedOk(hs + [h], k, q)
  {
    var more := hs + [h];
    if QueuedOk(hs, k, q) {
      if q.incoming {
        var i :| 0 <= i < |hs| && Brings(hs[i].event, q.data, k, q.from);
        assert more[i] == hs[i];
      } else {
        var i :| 0 <= i < |hs| && Asks(hs[i].event, q.data, k);
        assert more[i] == hs[i];
      }
    } else {
      assert more[|hs|] == h;
    }
  }

  lemma EntryMore(env: Env, hs: seq<Past>, h: Past, k: Addr, p: Peer)
    requires EntryOk(env, hs, k, p)
    ensures EntryOk(env, hs + [h], k, p)
  {
    hide Vouched, QueuedOk;
    if p.trusted {
      VouchedMore(env, hs, h, k, p.mapping);
    }
    forall i | 0 <= i < |p.queue|
      ensures QueuedOk(hs + [h], k, p.queue[i])
    {
      QueuedMore(hs, h, k, p.queue[i]);
    }
  }

  lemma InvMore(env: Env, hs: seq<Past>, h: Past, peers: map<Addr, Peer>)
    requires Inv(env, hs, peers)
    ensures Inv(env, hs + [h], peers)
  {
    hide EntryOk;
    forall k | k in peers
      ensures EntryOk(env, hs + [h], k, peers[k])
    {
      EntryMore(env, hs, h, k, peers[k]);
    }
  }

  /** Replacing one entry by a sound one keeps the invariant. */
  lemma InvPut(env: Env, hs: seq<Past>, peers: map<Addr, Peer>, k: Addr, p: Peer)
    requires forall x :: x in peers && x != k ==> EntryOk(env, hs, x, peers[x])
    requires EntryOk(env, hs, k, p)
    ensures Inv(env, hs, peers[k := p])
  {
    hide EntryOk;
  }

  lemma EnqueueOk(env: Env, hs: seq<Past>, k: Addr, p: Peer, q: Queued)
    requires EntryOk(env, hs, k, p) && QueuedOk(hs, k, q)
    ensures EntryOk(env, hs, k, Enqueue(p, q))
  {
    hide Vouched, QueuedOk;
    if |q.data| <= p.queueLeft {
      var r := Enqueue(p, q).queue;
      assert r == [q] + p.queue;
    }
  }

  lemma TxEntryOk(env: Env, hs: seq<Past>, p: Peer, created: bool, packet: seq<Byte>, prefix: Word32, now: Clock)
    requires |packet| >= 40 && Asked(hs, packet, Destination(packet))
    requires if created then p.queue == [] else EntryOk(env, hs, Destination(packet), p)
    ensures var (r, act) := TxEntry(p, created, Destination(packet), prefix, packet, now);
            && EntryOk(env, hs, Destination(packet), r)
            && (act == Direct ==> Vouched(env, hs, Destination(packet), r.mapping))
  {
    hide Vouched, Asked, Heard, Destination;
    var dst := Destination(packet);
    if created || !p.trusted || !IsValid(p, now) {
      var q := if created then Initial(p, dst, prefix) else p;
      EnqueueOk(env, hs, dst, q, Queued(packet, Endpoint(0, 0), false));
    }
  }

  lemma {:induction false} DrainOk(env: Env, hs: seq<Past>, k: Addr, q: seq<Queued>, at: Endpoint)
    requires QueueOk(hs, k, q) && Vouched(env, hs, k, at)
    ensures OutsOk(env, hs, Drain(q, at))
  {
    hide QueuedOk, Vouched, OutOk;
    if |q| > 0 {
      assert forall i :: 0 <= i < |q[1..]| ==> q[1..][i] == q[i + 1];
      DrainOk(env, hs, k, q[1..], at);
      HeadOk(env, hs, k, q[0], at);
    }
  }

  lemma HeadOk(env: Env, hs: seq<Past>, k: Addr, q: Queued, at: Endpoint)
    requires QueuedOk(hs, k, q) && Vouched(env, hs, k, at)
    ensures !q.incoming ==> OutOk(env, hs, Data(at, q.data))
    ensures q.incoming && q.from == at ==> OutOk(env, hs, Deliver(q.data))
  {
    if q.incoming {
      var i :| 0 <= i < |hs| && Brings(hs[i].event, q.data, k, q.from);
      ProperSource(hs[i].event.from.ip6);
    }
  }

  lemma AskedNow(hs: seq<Past>, h: Past)
    requires h.event.Tx? && Legal(h.event)
    ensures Asked(hs + [h], h.event.packet, Destination(h.event.packet))
  {
    assert Asks((hs + [h])[|hs|].event, h.event.packet, Destination(h.event.packet));
  }

  lemma TxOutOk(env: Env, hs: seq<Past>, t: Tunnel, act: TxAct, mapping: Endpoint, packet: seq<Byte>, now: Clock,
                time: Word32)
    requires |packet| >= 40 && Asked(hs, packet, Destination(packet))
    requires act == Direct ==> Vouched(env, hs, Destination(packet), mapping)
    ensures var (t', os) := TxOut(env, t, act, mapping, packet, now, time);
            t'.list == t.list && OutsOk(env, hs, os)
  {
    hide Vouched, Asked, Destination, Limit, Ping, Bubble, BubbleSource, IsGlobalUnicast, IsCone;
  }

  lemma TransmitSafe(env: Env, hs: seq<Past>, t: Tunnel, e: Event)
    requires e.Tx? && Legal(e) && Inv(env, hs, t.list.peers)
    ensures var (t', os) := Step(env, t, e);
            Inv(env, hs + [Past(t, e)], t'.list.peers) && OutsOk(env, hs + [Past(t, e)], os)
  {
    hide EntryOk, Vouched, Asked, Destination, Source, L.Without, TxEntry, TxOut, IsMulticast, IsGlobalUnicast, Limit;
    var hs' := hs + [Past(t, e)];
    InvMore(env, hs, Past(t, e), t.list.peers);
    if Gate(t, e.packet) == Pass {
      var dst := Destination(e.packet);
      var (l, o) := L.Lookup(t.list, dst, true, e.alloc, e.junk);
      if o != L.Missing {
        AskedNow(hs, Past(t, e));
        TxEntryOk(env, hs', l.peers[dst], o == L.Created, e.packet, t.state.addr.prefix, e.now);
        var (p, act) := TxEntry(l.peers[dst], o == L.Created, dst, t.state.addr.prefix, e.packet, e.now);
        InvPut(env, hs', l.peers, dst, p);
        TxOutOk(env, hs', t.(list := L.Put(l, dst, p)), act, p.mapping, e.packet, e.now, e.time);
      }
    }
  }

  /** Whoever ends up trusted has been vouched for, by this packet or before. */
  lemma JudgedTrust(env: Env, hs: seq<Past>, t: Tunnel, e: Event)
    requires e.Rx? && Reaches(t, e.from) && Inv(env, hs + [Past(t, e)], t.list.peers)
    requires Judge(env, t.client, t.state.addr.prefix, e.from, e.time, EntryOf(t.list, Source(e.from.ip6))).Trust?
    ensures Vouched(env, hs + [Past(t, e)], Source(e.from.ip6), e.from.source)
  {
    hide CheckPing, Proves, Source, Vouched;
    var src := Source(e.from.ip6);
    var entry := EntryOf(t.list, src);
    if entry.Some? && entry.value.trusted && entry.value.mapping == e.from.source {
      assert EntryOk(env, hs + [Past(t, e)], src, t.list.peers[src]);
    } else {
      VouchedMore(env, hs, Past(t, e), src, e.from.source);
    }
  }

  lemma HeardNow(hs: seq<Past>, h: Past)
    requires h.event.Rx? && WellFormed(h.event.from.ip6)
    ensures Heard(hs + [h], Proper(h.event.from.ip6), Source(h.event.from.ip6), h.event.from.source)
  {
    hide Source, Proper;
    assert Brings((hs + [h])[|hs|].event, Proper(h.event.from.ip6), Source(h.event.from.ip6), h.event.from.source);
  }

  lemma DeliverOk(env: Env, hs: seq<Past>, h: Past)
    requires h.event.Rx? && WellFormed(h.event.from.ip6)
    requires Vouched(env, hs + [h], Source(h.event.from.ip6), h.event.from.source)
    ensures OutOk(env, hs + [h], Deliver(Proper(h.event.from.ip6)))
  {
    hide Vouched, Heard, Source, Proper;
    ProperSource(h.event.from.ip6);
    HeardNow(hs, h);
  }

  lemma SuspectedOk(env: Env, hs: seq<Past>, k: Addr, p: Peer, created: bool, prefix: Word32, d: seq<Byte>,
                    at: Endpoint, now: Clock)
    requires Heard(hs, d, k, at)
    requires if created then p.queue == [] else EntryOk(env, hs, k, p)
    ensures EntryOk(env, hs, k, Suspected(p, created, k, prefix, d, at, now).0)
  {
    hide Vouched, Heard, Asked;
    EnqueueOk(env, hs, k, if created then Initial(p, k, prefix) else p, Queued(d, at, true));
  }

  lemma ProcessSafe(env: Env, hs: seq<Past>, t: Tunnel, e: Event)
    requires e.Rx? && Reaches(t, e.from) && Inv(env, hs, t.list.peers)
    ensures var (t', os) := Process(env, t, e.from, e.now, e.time, e.alloc, e.junk);
            Inv(env, hs + [Past(t, e)], t'.list.peers) && OutsOk(env, hs + [Past(t, e)], os)
  {
    hide Source, Vouched, Heard, Judge, Proper, L.Without, Drain, Suspected, Ping, PayloadLength, OutOk;
    var hs', src := hs + [Past(t, e)], Source(e.from.ip6);
    InvMore(env, hs, Past(t, e), t.list.peers);
    var v := Judge(env, t.client, t.state.addr.prefix, e.from, e.time, EntryOf(t.list, src));
    var (l, o) := L.Lookup(t.list, src, v != Reject, e.alloc, e.junk);
    if v != Reject && o != L.Missing {
      var p := l.peers[src];
      assert if o == L.Created then p.queue == [] else EntryOk(env, hs', src, p);
      if v.Trust? {
        JudgedTrust(env, hs, t, e);
        DeliverOk(env, hs, Past(t, e));
        DrainOk(env, hs', src, p.queue, e.from.source);
        InvPut(env, hs', l.peers, src, Confirmed(p, e.from.source, e.now));
      } else {
        HeardNow(hs, Past(t, e));
        SuspectedOk(env, hs', src, p, o == L.Created, t.state.addr.prefix, Proper(e.from.ip6), e.from.source, e.now);
        InvPut(env, hs', l.peers, src,
               Suspected(p, o == L.Created, src, t.state.addr.prefix, Proper(e.from.ip6), e.from.source, e.now).0);
        ControlOk(env, hs', SendPing(env, e.time, t.state.addr, src));
      }
    }
  }

  lemma ControlOk(env: Env, hs: seq<Past>, os: seq<Out>)
    requires forall i :: 0 <= i < |os| ==> os[i].Control?
    ensures OutsOk(env, hs, os)
  {
  }

  lemma ReceiveSafe(env: Env, hs: seq<Past>, t: Tunnel, e: Event)
    requires e.Rx? && Inv(env, hs, t.list.peers)
    ensures var (t', os) := Step(env, t, e);
            Inv(env, hs + [Past(t, e)], t'.list.peers) && OutsOk(env, hs + [Past(t, e)], os)
  {
    hide Source, Destination, EntryOk, Process, IsBubble, OutOk, Bubble, PayloadLength, IsMulticast, IsLinkLocal;
    InvMore(env, hs, Past(t, e), t.list.peers);
    if Reaches(t, e.from) {
      ProcessSafe(env, hs, t, e);
    }
    if WellFormed(e.from.ip6) {
      ControlOk(env, hs + [Past(t, e)], ReplyBubble(t.state, e.from));
      assert OutOk(env, hs + [Past(t, e)], Maintenance(e.from)) by { MaintenanceOk(env, hs + [Past(t, e)], e.from); }
    }
  }

  lemma MaintenanceOk(env: Env, hs: seq<Past>, p: Packet)
    ensures OutOk(env, hs, Maintenance(p))
  {
  }

  lemma HistoryMore(env: Env, t: Tunnel, es: seq<Event>)
    requires AllLegal(es) && |es| > 0
    ensures var f := es[..|es| - 1];
            History(env, t, es) == History(env, t, f) + [Past(Run(env, t, f), es[|es| - 1])]
  {
    hide Run;
    var f := es[..|es| - 1];
    assert forall i :: 0 <= i < |f| ==> f[..i] == es[..i] && f[i] == es[i];
  }

  lemma StepSafe(env: Env, hs: seq<Past>, t: Tunnel, e: Event)
    requires Legal(e) && Inv(env, hs, t.list.peers)
    ensures var (t', os) := Step(env, t, e);
            Inv(env, hs + [Past(t, e)], t'.list.peers) && OutsOk(env, hs + [Past(t, e)], os)
  {
    hide EntryOk, Transmit, Receive;
    match e {
      case Tx(_, _, _, _, _) => TransmitSafe(env, hs, t, e);
      case Rx(_, _, _, _, _) => ReceiveSafe(env, hs, t, e);
      case Change(_) => InvMore(env, hs, Past(t, e), t.list.peers);
      case Sweep => InvMore(env, hs, Past(t, e), t.list.peers);
      case Configure(_, _) => InvMore(env, hs, Past(t, e), t.list.peers);
      case See(_) => InvMore(env, hs, Past(t, e), t.list.peers);
    }
  }

  /** In every run that starts with an empty peer list, a trusted entry is mapped to the source of
      an earlier packet that vouched for it, every user packet is sent to such an endpoint and
      every packet delivered came from one. */
  lemma {:induction false} TrustSafe(env: Env, t: Tunnel, es: seq<Event>)
    requires AllLegal(es) && t.list.peers == map[]
    ensures Inv(env, History(env, t, es), Run(env, t, es).list.peers)
    ensures |es| > 0 ==> OutsOk(env, History(env, t, es), LastOut(env, t, es))
  {
    hide EntryOk, OutOk, Step;
    if |es| > 0 {
      var n := |es| - 1;
      var f := es[..n];
      TrustSafe(env, t, f);
      StepSafe(env, History(env, t, f), Run(env, t, f), es[n]);
      HistoryMore(env, t, es);
    }
  }
}

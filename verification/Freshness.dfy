/** How recent the trust behind a packet is. */
module Freshness {
  import opened Bytes
  import opened Addresses
  import opened Packets
  import opened Peers
  import opened Tunnels
  import opened EntryHistory
  import L = PeerLists

  /** A packet of `k` came from `at` at the time `when`. */
  predicate Speaks(e: Event, k: Addr, at: Endpoint, when: Clock) {
    e.Rx? && WellFormed(e.from.ip6) && Source(e.from.ip6) == k && e.from.source == at && e.now == when
  }

  ghost predicate Spoke(es: seq<Event>, k: Addr, at: Endpoint, when: Clock) {
    exists i :: 0 <= i < |es| && Speaks(es[i], k, at, when)
  }

  /** A packet of `k` came at the time `when` from an endpoint other than `at`. */
  predicate SpeaksElsewhere(e: Event, k: Addr, at: Endpoint, when: Clock) {
    e.Rx? && WellFormed(e.from.ip6) && Source(e.from.ip6) == k && e.from.source != at && e.now == when
  }

  ghost predicate SpokeElsewhere(es: seq<Event>, k: Addr, at: Endpoint, when: Clock) {
    exists i :: 0 <= i < |es| && SpeaksElsewhere(es[i], k, at, when)
  }

  lemma SpokeMore(es: seq<Event>, e: Event, k: Addr, at: Endpoint, when: Clock)
    ensures Spoke(es, k, at, when) || Speaks(e, k, at, when) ==> Spoke(es + [e], k, at, when)
    ensures SpokeElsewhere(es, k, at, when) || SpeaksElsewhere(e, k, at, when) ==> SpokeElsewhere(es + [e], k, at, when)
  {
    hide Speaks, SpeaksElsewhere;
    var more := es + [e];
    assert forall i :: 0 <= i < |es| ==> more[i] == es[i];
    assert more[|es|] == e;
  }

  // --- unproven packets -------------------------------------------------------------------------------------

  /** Since the last reply of `k`, a packet of `k` that proved nothing was received and held. */
  function Renewed(env: Env, t: Tunnel, es: seq<Event>, k: Addr): bool
    requires AllLegal(es)
  {
    if |es| == 0 then false
    else
      var n := |es| - 1;
      match EffectOn(env, Run(env, t, es[..n]), es[n], k)
      case Replied(_, _) => false
      case Freed => false
      case Tried(_, _, _) => es[n].Rx? || Renewed(env, t, es[..n], k)
      case _ => Renewed(env, t, es[..n], k)
  }

  /** What an event does to the trust in an entry. */
  ghost predicate TrustFollows(p: Peer, eff: Effect, e: Event, k: Addr, p': Peer) {
    p'.trusted ==>
      match eff
      case Replied(_, _) => Speaks(e, k, p'.mapping, p'.lastRx)
      case Freed => false
      case Tried(_, _, _) =>
        && p.trusted && p'.mapping == p.mapping
        && (if e.Rx? then SpeaksElsewhere(e, k, p'.mapping, p'.lastRx) else p'.lastRx == p.lastRx)
      case _ => p.trusted && p'.mapping == p.mapping && p'.lastRx == p.lastRx
  }

  /** A transmission trusts nobody and changes neither mapping nor time of reception. */
  lemma EntryStale(p: Peer, created: bool, k: Addr, prefix: Word32, packet: seq<Byte>, now: Clock)
    ensures var r := TxEntry(p, created, k, prefix, packet, now).0;
            r.trusted ==> !created && p.trusted && r.mapping == p.mapping && r.lastRx == p.lastRx
  {
    hide Elapsed, Embedded;
  }

  lemma TrustTx(env: Env, t: Tunnel, e: Event, k: Addr)
    requires e.Tx? && Legal(e)
    ensures TrustFollows(Entry(t, k), EffectOn(env, t, e, k), e, k, Entry(Step(env, t, e).0, k))
  {
    hide Destination, L.Without, Gate, TxEntry, Transmit;
    TransmitKeeps(env, t, e.packet, e.now, e.time, e.alloc, e.junk);
    if Gate(t, e.packet) == Pass {
      var dst := Destination(e.packet);
      var (l, o) := L.Lookup(t.list, dst, true, e.alloc, e.junk);
      if o != L.Missing {
        EntryStale(l.peers[dst], o == L.Created, dst, t.state.addr.prefix, e.packet, e.now);
      }
    }
  }

  lemma TrustRx(env: Env, t: Tunnel, e: Event, k: Addr)
    requires e.Rx?
    ensures TrustFollows(Entry(t, k), EffectOn(env, t, e, k), e, k, Entry(Step(env, t, e).0, k))
  {
    hide Source, Destination, PayloadLength, L.Without, Drain, Proper, IsBubble, SendPing, ReplyBubble, CheckPing,
         IsMulticast, IsLinkLocal, Embedded, ForMaintenance, Proves, Rendezvous;
  }

  lemma TrustStep(env: Env, t: Tunnel, e: Event, k: Addr)
    requires Legal(e)
    ensures TrustFollows(Entry(t, k), EffectOn(env, t, e, k), e, k, Entry(Step(env, t, e).0, k))
  {
    hide Transmit, Receive, TxEffect, RxEffect, Speaks, SpeaksElsewhere;
    match e {
      case Tx(_, _, _, _, _) => TrustTx(env, t, e, k);
      case Rx(_, _, _, _, _) => TrustRx(env, t, e, k);
      case Change(_) =>
      case Sweep =>
      case Configure(_, _) =>
      case See(_) =>
    }
  }

  /** When the recorded time is that of a packet from the mapping, and when not. */
  ghost predicate HeardAs(es: seq<Event>, k: Addr, p: Peer, renewed: bool) {
    p.trusted ==> if renewed then SpokeElsewhere(es, k, p.mapping, p.lastRx) else Spoke(es, k, p.mapping, p.lastRx)
  }

  /** In every run, and for every peer trusted at its end: unless a packet that proved nothing was
      held since the last reply, the recorded time is that of a packet that came from the mapping;
      otherwise it is that of one that came from elsewhere. */
  lemma {:induction false} HeardExactly(env: Env, t: Tunnel, es: seq<Event>, k: Addr)
    requires AllLegal(es) && t.list.peers == map[]
    ensures HeardAs(es, k, Entry(Run(env, t, es), k), Renewed(env, t, es, k))
  {
    hide Spoke, SpokeElsewhere, Speaks, SpeaksElsewhere, Step, EffectOn;
    if |es| > 0 {
      var n := |es| - 1;
      var f, e := es[..n], es[n];
      assert f + [e] == es;
      HeardExactly(env, t, f, k);
      TrustStep(env, Run(env, t, f), e, k);
      var p' := Entry(Run(env, t, es), k);
      SpokeMore(f, e, k, p'.mapping, p'.lastRx);
    }
  }

  /** A user packet goes straight to a peer whose trust was not renewed without proof only if that
      peer was heard from that very endpoint at most 30 seconds before. */
  lemma DirectIsFresh(env: Env, t: Tunnel, es: seq<Event>, e: Event) returns (i: nat)
    requires AllLegal(es) && t.list.peers == map[]
    requires e.Tx? && Legal(e) && EffectOn(env, Run(env, t, es), e, Destination(e.packet)) == Sent
    requires !Renewed(env, t, es, Destination(e.packet))
    ensures i < |es| && es[i].Rx? && WellFormed(es[i].from.ip6) && Source(es[i].from.ip6) == Destination(e.packet)
    ensures Step(env, Run(env, t, es), e).1 == [Data(es[i].from.source, e.packet)]
    ensures Elapsed(e.now, es[i].now) <= 30
  {
    var t', k := Run(env, t, es), Destination(e.packet);
    HeardExactly(env, t, es, k);
    hide Run, Destination, Source, L.Without, IsMulticast, IsGlobalUnicast, Elapsed, Renewed;
    var p := t'.list.peers[k];
    assert Spoke(es, k, p.mapping, p.lastRx);
    i :| 0 <= i < |es| && Speaks(es[i], k, p.mapping, p.lastRx);
  }

  /** Otherwise it goes where the peer was not when it was last heard: the packet that keeps the
      entry valid came from elsewhere. */
  lemma DirectIsStale(env: Env, t: Tunnel, es: seq<Event>, e: Event) returns (i: nat)
    requires AllLegal(es) && t.list.peers == map[]
    requires e.Tx? && Legal(e) && EffectOn(env, Run(env, t, es), e, Destination(e.packet)) == Sent
    requires Renewed(env, t, es, Destination(e.packet))
    ensures i < |es| && es[i].Rx? && WellFormed(es[i].from.ip6) && Source(es[i].from.ip6) == Destination(e.packet)
    ensures var os := Step(env, Run(env, t, es), e).1;
            |os| == 1 && os[0].Data? && os[0].to != es[i].from.source
    ensures Elapsed(e.now, es[i].now) <= 30
  {
    var t', k := Run(env, t, es), Destination(e.packet);
    HeardExactly(env, t, es, k);
    hide Run, Destination, Source, L.Without, IsMulticast, IsGlobalUnicast, Elapsed, Renewed;
    var p := t'.list.peers[k];
    assert SpokeElsewhere(es, k, p.mapping, p.lastRx);
    i :| 0 <= i < |es| && SpeaksElsewhere(es[i], k, p.mapping, p.lastRx);
  }

  // --- peers whose trust is only renewed by proof -----------------------------------------------------------

  /** Every peer of a relay, and the Teredo peers of a client that is up. */
  predicate Strict(t: Tunnel, k: Addr) {
    t.client ==> t.state.up && k.prefix == t.state.addr.prefix
  }

  /** A client's calls never work with a snapshot that has another prefix, or is up when the tunnel
      is down. */
  ghost predicate Steady(env: Env, t: Tunnel, es: seq<Event>)
    requires AllLegal(es)
  {
    t.client ==> forall i :: 0 <= i < |es| ==> SteadyAt(Run(env, t, es[..i]), es[i])
  }

  predicate SteadyAt(t: Tunnel, e: Event) {
    e.See? ==> e.state.addr.prefix == t.state.addr.prefix && (e.state.up ==> t.state.up)
  }

  lemma SteadyBefore(env: Env, t: Tunnel, es: seq<Event>)
    requires AllLegal(es) && |es| > 0 && Steady(env, t, es)
    ensures Steady(env, t, es[..|es| - 1])
    ensures t.client ==> SteadyAt(Run(env, t, es[..|es| - 1]), es[|es| - 1])
  {
    hide Run, SteadyAt;
    var f := es[..|es| - 1];
    assert forall i :: 0 <= i < |f| ==> f[..i] == es[..i] && f[i] == es[i];
  }

  /** Unproven packets of such a peer are not held. */
  lemma NotHeld(env: Env, t: Tunnel, e: Event, k: Addr)
    requires e.Rx? && Strict(t, k)
    ensures !EffectOn(env, t, e, k).Tried?
  {
    hide Source, Destination, L.Lookup, Suspected, Proper, CheckPing, Proves, IsBubble, IsMulticast, IsLinkLocal,
         ForMaintenance, Rendezvous;
  }

  /** What makes a peer strict: it was so before, or its entry is freed. */
  lemma StrictStep(env: Env, t: Tunnel, e: Event, k: Addr)
    requires Legal(e) && (t.client ==> SteadyAt(t, e))
    ensures Strict(Step(env, t, e).0, k) ==> Strict(t, k) || EffectOn(env, t, e, k) == Freed
  {
    StateStep(env, t, e);
    hide Transmit, Receive, TxEffect, RxEffect;
  }

  lemma StateStep(env: Env, t: Tunnel, e: Event)
    requires Legal(e)
    ensures Step(env, t, e).0.client == t.client
    ensures e.Tx? || e.Rx? ==> Step(env, t, e).0.state == t.state
  {
    hide Source, Destination, L.Lookup, L.Put, Gate, Judge, Suspected, Drain, Proper, Admitted, ForMaintenance,
         ReplyBubble, Confirmed, Transmit, SendPing;
    if e.Tx? {
      TransmitKeeps(env, t, e.packet, e.now, e.time, e.alloc, e.junk);
    }
  }

  lemma {:induction false} NeverRenewed(env: Env, t: Tunnel, es: seq<Event>, k: Addr)
    requires AllLegal(es) && Steady(env, t, es)
    ensures Run(env, t, es).client == t.client
    ensures Strict(Run(env, t, es), k) ==> !Renewed(env, t, es, k)
  {
    hide Step, EffectOn, Strict, Steady, SteadyAt;
    if |es| > 0 {
      var f, e := es[..|es| - 1], es[|es| - 1];
      var t' := Run(env, t, f);
      SteadyBefore(env, t, es);
      NeverRenewed(env, t, f, k);
      StateStep(env, t', e);
      StrictStep(env, t', e, k);
      if e.Rx? && Strict(t', k) {
        NotHeld(env, t', e, k);
      }
    }
  }

  /** In every run, whatever becomes of the state and the prefix of the tunnel, a peer trusted at a
      relay, and a Teredo peer trusted at a client that is up, was heard from its mapping at the
      time recorded as its last reception. */
  lemma FreshRuns(env: Env, t: Tunnel, es: seq<Event>, k: Addr)
    requires AllLegal(es) && t.list.peers == map[] && Steady(env, t, es)
    ensures var t' := Run(env, t, es);
            k in t'.list.peers && Strict(t', k) && t'.list.peers[k].trusted ==>
              Spoke(es, k, t'.list.peers[k].mapping, t'.list.peers[k].lastRx)
  {
    hide Run, Renewed, Strict, Steady, Spoke;
    NeverRenewed(env, t, es, k);
    HeardExactly(env, t, es, k);
  }

  /** Hence a user packet always goes straight to such a peer where it was heard at most 30 seconds
      before. */
  lemma StrictIsFresh(env: Env, t: Tunnel, es: seq<Event>, e: Event) returns (i: nat)
    requires AllLegal(es) && t.list.peers == map[] && Steady(env, t, es)
    requires e.Tx? && Legal(e) && EffectOn(env, Run(env, t, es), e, Destination(e.packet)) == Sent
    requires t.client ==> Destination(e.packet).prefix == Run(env, t, es).state.addr.prefix
    ensures i < |es| && es[i].Rx? && WellFormed(es[i].from.ip6) && Source(es[i].from.ip6) == Destination(e.packet)
    ensures Step(env, Run(env, t, es), e).1 == [Data(es[i].from.source, e.packet)]
    ensures Elapsed(e.now, es[i].now) <= 30
  {
    hide Renewed, Steady, Destination, Step, Elapsed, Run;
    NeverRenewed(env, t, es, Destination(e.packet));
    SentWhenUp(env, Run(env, t, es), e);
    i := DirectIsFresh(env, t, es, e);
  }

  lemma SentWhenUp(env: Env, t: Tunnel, e: Event)
    requires e.Tx? && Legal(e) && EffectOn(env, t, e, Destination(e.packet)) == Sent
    ensures t.client ==> t.state.up
  {
    hide Destination, Source, L.Lookup, TxEntry, IsMulticast, IsGlobalUnicast;
  }

  /** The same does not hold of the other peers of a client. A packet that proves nothing, from an
      endpoint that is not the mapping, leaves the entry of a Teredo peer as it was; it renews the
      trust in any other peer at its old mapping. */
  lemma UnprovenPacketRenews(env: Env, t: Tunnel, e: Event)
    requires e.Rx? && Reaches(t, e.from) && Source(e.from.ip6) in t.list.peers
    requires var p := t.list.peers[Source(e.from.ip6)]; p.trusted && p.mapping != e.from.source
    requires Source(e.from.ip6).prefix == t.state.addr.prefix ==> !Proves(env, e.from)
    requires !CheckPing(env.secret, e.time, e.from.ip6)
    ensures var k := Source(e.from.ip6);
            var p, t' := t.list.peers[k], Step(env, t, e).0;
            && k in t'.list.peers
            && if k.prefix == t.state.addr.prefix then t'.list.peers[k] == p
               else
                 var p' := t'.list.peers[k];
                 p'.trusted && p'.mapping == p.mapping && p'.lastRx == e.now
  {
    hide Source, Destination, PayloadLength, L.Without, Drain, Proper, IsBubble, SendPing, SendBubble, CheckPing,
         IsMulticast, IsLinkLocal, Embedded, ForMaintenance, Proves;
  }

  /** A call that works with a snapshot of another prefix does the same to a Teredo peer. */
  lemma StaleSnapshotRenews(env: Env, t: Tunnel, e: Event, seen: State)
    requires e.Rx? && Reaches(t.(state := seen), e.from) && Source(e.from.ip6) in t.list.peers
    requires var p := t.list.peers[Source(e.from.ip6)]; p.trusted && p.mapping != e.from.source
    requires Source(e.from.ip6).prefix == t.state.addr.prefix != seen.addr.prefix
    requires !CheckPing(env.secret, e.time, e.from.ip6)
    ensures var k, es := Source(e.from.ip6), [See(seen), e, See(t.state)];
            && AllLegal(es)
            && var t' := Run(env, t, es);
               && t'.state == t.state && k in t'.list.peers
               && t'.list.peers[k].trusted && t'.list.peers[k].mapping == t.list.peers[k].mapping
               && t'.list.peers[k].lastRx == e.now
  {
    hide Source, Receive, CheckPing;
    var es := [See(seen), e, See(t.state)];
    assert es[..2] == [See(seen), e] && es[..2][..1] == [See(seen)] && es[..2][..1][..0] == [];
    UnprovenPacketRenews(env, t.(state := seen), e);
    assert Run(env, t, es[..2][..1]) == t.(state := seen);
  }
}

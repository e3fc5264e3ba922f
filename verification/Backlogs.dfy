/** Packets that wait for an answer: what a tunnel keeps for a peer that it cannot reach yet. */
module Backlogs {
  import opened Bytes
  import opened Addresses
  import opened Packets
  import opened Peers
  import opened Tunnels
  import H = EntryHistory
  import L = PeerLists

  /** The packets that fit in the queue, taken in order. */
  function Fit(ds: seq<seq<Byte>>): (w: seq<seq<Byte>>) {
    if |ds| == 0 then []
    else
      var w := Fit(ds[..|ds| - 1]);
      var d := ds[|ds| - 1];
      if |d| + |Flatten(w)| <= MAX_QUEUE_BYTES then w + [d] else w
  }

  /** The queue that holds them, newest first. */
  function Backlog(w: seq<seq<Byte>>): seq<Queued> {
    if |w| == 0 then [] else [Queued(w[|w| - 1], Endpoint(0, 0), false)] + Backlog(w[..|w| - 1])
  }

  /** Each of them sent once to `at`, newest first. */
  function SentTo(w: seq<seq<Byte>>, at: Endpoint): seq<Out> {
    if |w| == 0 then [] else [Data(at, w[|w| - 1])] + SentTo(w[..|w| - 1], at)
  }

  /** The transmission of a packet for `b` that a tunnel in the state of `t` does not refuse. */
  predicate Toward(t: Tunnel, e: Event, b: Addr) {
    e.Tx? && |e.packet| >= 40 && Destination(e.packet) == b && Gate(t, e.packet) == Pass
  }

  /** The packets for `b` that a run was asked to transmit, in order. */
  function Offered(t: Tunnel, es: seq<Event>, b: Addr): seq<seq<Byte>> {
    if |es| == 0 then []
    else
      var e := es[|es| - 1];
      Offered(t, es[..|es| - 1], b) + if Toward(t, e, b) then [e.packet] else []
  }

  /** An event that neither proves where `b` is nor frees its entry. Packets may go to anyone and
      come from anyone, and the collector may run as long as `b` was looked up since it last did. */
  ghost predicate Undisturbed(env: Env, t: Tunnel, e: Event, b: Addr) {
    match e
    case Tx(_, _, _, _, _) => true
    case Rx(_, _, _, _, _) => H.RxEffect(env, t, e, b) == H.Untouched
    case Change(_) => false
    case Sweep => b !in t.list.aged
    case Configure(_, _) => t.client
    case See(s) => s == t.state
  }

  ghost predicate AllUndisturbed(env: Env, t: Tunnel, es: seq<Event>, b: Addr)
    requires AllLegal(es)
  {
    forall i :: 0 < i < |es| ==> Undisturbed(env, Run(env, t, es[..i]), es[i], b)
  }

  /** While the peer has not answered, its entry is untrusted and holds what fits. */
  ghost predicate Waits(t0: Tunnel, t: Tunnel, b: Addr, w: seq<seq<Byte>>) {
    && t.client == t0.client && t.state == t0.state
    && b in t.list.peers
    && var e := t.list.peers[b];
       !e.trusted && e.queue == Backlog(w) && e.queueLeft + |Flatten(w)| == MAX_QUEUE_BYTES
  }

  lemma NoBacklog()
    ensures Backlog([]) == [] && Flatten([]) == []
  {
  }

  lemma QueueGrows(e: Peer, w: seq<seq<Byte>>, d: seq<Byte>)
    requires e.queue == Backlog(w) && e.queueLeft + |Flatten(w)| == MAX_QUEUE_BYTES
    ensures var w' := if |d| + |Flatten(w)| <= MAX_QUEUE_BYTES then w + [d] else w;
            && EnqueueOut(e, d).queue == Backlog(w') && EnqueueOut(e, d).queueLeft + |Flatten(w')| == MAX_QUEUE_BYTES
            && EnqueueOut(e, d).trusted == e.trusted
  {
    assert (w + [d])[..|w|] == w;
  }

  lemma EntryWaits(p: Peer, created: bool, b: Addr, prefix: Word32, d: seq<Byte>, now: Clock, w: seq<seq<Byte>>)
    requires p.queue == Backlog(w) && p.queueLeft + |Flatten(w)| == MAX_QUEUE_BYTES && (created || !p.trusted)
    ensures var r := TxEntry(p, created, b, prefix, d, now).0;
            var w' := if |d| + |Flatten(w)| <= MAX_QUEUE_BYTES then w + [d] else w;
            && !r.trusted
            && r.queue == Backlog(w') && r.queueLeft + |Flatten(w')| == MAX_QUEUE_BYTES
  {
    hide Backlog, Flatten, EnqueueOut, Elapsed, Embedded;
    QueueGrows(if created then Initial(p, b, prefix) else p, w, d);
  }

  lemma TransmitWaits(env: Env, t: Tunnel, b: Addr, e: Event, w: seq<seq<Byte>>)
    requires Toward(t, e, b)
    requires if b in t.list.peers then Waits(t, t, b, w) else w == [] && t.list.left > 0 && e.alloc
    ensures var d := e.packet;
            Waits(t, Step(env, t, e).0, b, if |d| + |Flatten(w)| <= MAX_QUEUE_BYTES then w + [d] else w)
  {
    hide Destination, Gate, L.Without, TxEntry, Transmit, Backlog, Flatten;
    TransmitKeeps(env, t, e.packet, e.now, e.time, e.alloc, e.junk);
    var (l, o) := L.Lookup(t.list, b, true, e.alloc, e.junk);
    NoBacklog();
    EntryWaits(l.peers[b], o == L.Created, b, t.state.addr.prefix, e.packet, e.now, w);
  }

  lemma SentElsewhere(env: Env, t: Tunnel, b: Addr, e: Event)
    requires e.Tx? && Legal(e) && !Toward(t, e, b)
    ensures var t' := Step(env, t, e).0;
            t'.client == t.client && t'.state == t.state && EntryOf(t'.list, b) == EntryOf(t.list, b)
  {
    hide Destination, Gate, L.Without, TxEntry, Transmit;
    TransmitKeeps(env, t, e.packet, e.now, e.time, e.alloc, e.junk);
  }

  lemma NothingProved(env: Env, t: Tunnel, b: Addr, e: Event)
    requires e.Rx? && b in t.list.peers && H.RxEffect(env, t, e, b) == H.Untouched
    ensures var t' := Step(env, t, e).0;
            t'.client == t.client && t'.state == t.state && EntryOf(t'.list, b) == EntryOf(t.list, b)
  {
    hide Destination, Source, L.Without, Judge, Suspected, Drain, Proper, IsMulticast, IsLinkLocal, IsBubble, SendPing,
         SendBubble, ForMaintenance, Confirmed, Rendezvous;
  }

  lemma StillWaits(env: Env, t0: Tunnel, t: Tunnel, b: Addr, e: Event, w: seq<seq<Byte>>)
    requires Waits(t0, t, b, w) && Legal(e) && !Toward(t, e, b) && Undisturbed(env, t, e, b)
    ensures Waits(t0, Step(env, t, e).0, b, w)
  {
    hide Transmit, Receive, Backlog, Flatten, Toward, L.Without, H.RxEffect;
    match e {
      case Tx(_, _, _, _, _) => SentElsewhere(env, t, b, e);
      case Rx(_, _, _, _, _) => NothingProved(env, t, b, e);
      case Sweep =>
      case Configure(_, _) =>
      case See(_) =>
    }
  }

  lemma FitMore(ds: seq<seq<Byte>>, d: seq<Byte>)
    ensures Fit(ds + [d]) == if |d| + |Flatten(Fit(ds))| <= MAX_QUEUE_BYTES then Fit(ds) + [d] else Fit(ds)
  {
    assert (ds + [d])[..|ds|] == ds;
  }

  lemma UndisturbedBefore(env: Env, t: Tunnel, es: seq<Event>, b: Addr)
    requires AllLegal(es) && |es| > 1 && AllUndisturbed(env, t, es, b)
    ensures var before := es[..|es| - 1];
            AllUndisturbed(env, t, before, b) && Undisturbed(env, Run(env, t, before), es[|es| - 1], b)
  {
    hide Run, Undisturbed;
    assert forall i :: 0 < i < |es| ==> es[..|es| - 1][..i] == es[..i];
  }

  /** Whether a packet is refused depends on the state of the tunnel only. */
  lemma SameGate(t: Tunnel, t': Tunnel, e: Event, b: Addr)
    requires t.client == t'.client && t.state == t'.state
    ensures Toward(t, e, b) == Toward(t', e, b)
  {
    hide Destination, Source, IsGlobalUnicast, IsMulticast;
  }

  /** Until something proves where `b` is, its entry stays untrusted and its queue holds, of the
      packets offered for `b` since the first, those that fit. */
  lemma {:induction false} RunWaits(env: Env, t: Tunnel, b: Addr, es: seq<Event>)
    requires AllLegal(es) && |es| > 0 && Toward(t, es[0], b) && AllUndisturbed(env, t, es, b)
    requires b !in t.list.peers && t.list.left > 0 && es[0].alloc
    ensures Waits(t, Run(env, t, es), b, Fit(Offered(t, es, b)))
  {
    hide Step, Destination, Gate, Backlog, AllUndisturbed, Fit, Flatten, Undisturbed;
    var n := |es| - 1;
    var before := es[..n];
    var ds := Offered(t, before, b);
    var w, t' := Fit(ds), Run(env, t, before);
    if Toward(t, es[n], b) {
      FitMore(ds, es[n].packet);
    } else {
      assert ds + [] == ds;
    }
    if n == 0 {
      assert before == [];
      NoneFits();
      TransmitWaits(env, t, b, es[0], []);
    } else {
      UndisturbedBefore(env, t, es, b);
      RunWaits(env, t, b, before);
      SameGate(t, t', es[n], b);
      if Toward(t, es[n], b) {
        TransmitWaits(env, t', b, es[n], w);
      } else {
        StillWaits(env, t, t', b, es[n], w);
      }
    }
  }

  lemma NoneFits()
    ensures Fit([]) == []
  {
  }

  lemma {:induction false} BacklogDrains(w: seq<seq<Byte>>, at: Endpoint)
    ensures Drain(Backlog(w), at) == SentTo(w, at)
  {
    if |w| > 0 {
      assert Backlog(w)[1..] == Backlog(w[..|w| - 1]);
      BacklogDrains(w[..|w| - 1], at);
    }
  }
}

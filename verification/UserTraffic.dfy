/** What becomes of the packets of one peer over a run: every packet sent or delivered is accounted
    for, and so is every packet that had to wait. */
module UserTraffic {
  import opened Bytes
  import opened Addresses
  import opened Encapsulation
  import opened Packets
  import opened Peers
  import opened Tunnels
  import opened EntryHistory
  import L = PeerLists

  // --- user packets among the outputs ----------------------------------------------------------------------

  /** A user packet sent to `k`, or delivered from `k`. */
  predicate UserPacket(o: Out, k: Addr) {
    match o
    case Data(_, d) => |d| >= 40 && Destination(d) == k
    case Deliver(d) => |d| >= 40 && Source(d) == k
    case _ => false
  }

  /** The user packets of `k` among the outputs of one step. */
  function Of(os: seq<Out>, k: Addr): seq<Out> {
    if |os| == 0 then [] else (if UserPacket(os[0], k) then [os[0]] else []) + Of(os[1..], k)
  }

  lemma {:induction false} OfConcat(a: seq<Out>, b: seq<Out>, k: Addr)
    ensures Of(a + b, k) == Of(a, k) + Of(b, k)
  {
    hide UserPacket;
    if |a| == 0 {
      assert a + b == b;
    } else {
      assert (a + b)[1..] == a[1..] + b;
      OfConcat(a[1..], b, k);
    }
  }

  lemma {:induction false} OfAll(os: seq<Out>, k: Addr)
    requires forall o :: o in os ==> UserPacket(o, k)
    ensures Of(os, k) == os
  {
    hide UserPacket;
    if |os| > 0 {
      OfAll(os[1..], k);
    }
  }

  lemma {:induction false} OfNone(os: seq<Out>, k: Addr)
    requires forall o :: o in os ==> !UserPacket(o, k)
    ensures Of(os, k) == []
  {
    hide UserPacket;
    if |os| > 0 {
      OfNone(os[1..], k);
    }
  }

  /** The user packets of `k` that a run sent and delivered, in order. */
  function Trace(env: Env, t: Tunnel, es: seq<Event>, k: Addr): seq<Out>
    requires AllLegal(es)
  {
    if |es| == 0 then [] else Trace(env, t, es[..|es| - 1], k) + Of(LastOut(env, t, es), k)
  }

  // --- why they were emitted ---------------------------------------------------------------------------------

  datatype Act =
    | SentAtOnce(at: Endpoint, packet: seq<Byte>)   // to a peer trusted and heard recently
    | DeliveredAtOnce(packet: seq<Byte>)            // as it came in
    | Drained(q: Queued, at: Endpoint)              // taken out of the queue by a reply from `at`

  /** An incoming packet that waited is delivered only if it came from where the reply came from. */
  function Emission(a: Act): seq<Out> {
    match a
    case SentAtOnce(at, d) => [Data(at, d)]
    case DeliveredAtOnce(d) => [Deliver(d)]
    case Drained(q, at) => if !q.incoming then [Data(at, q.data)] else if q.from == at then [Deliver(q.data)] else []
  }

  function Emissions(acts: seq<Act>): seq<Out> {
    if |acts| == 0 then [] else Emission(acts[0]) + Emissions(acts[1..])
  }

  lemma {:induction false} EmissionsConcat(a: seq<Act>, b: seq<Act>)
    ensures Emissions(a + b) == Emissions(a) + Emissions(b)
  {
    hide Emission;
    if |a| == 0 {
      assert a + b == b;
    } else {
      assert (a + b)[1..] == a[1..] + b;
      EmissionsConcat(a[1..], b);
    }
  }

  function DrainedBy(q: seq<Queued>, at: Endpoint): seq<Act> {
    seq(|q|, i requires 0 <= i < |q| => Drained(q[i], at))
  }

  lemma {:induction false} DrainIsEmission(q: seq<Queued>, at: Endpoint)
    ensures Drain(q, at) == Emissions(DrainedBy(q, at))
  {
    if |q| > 0 {
      assert DrainedBy(q, at)[1..] == DrainedBy(q[1..], at);
      DrainIsEmission(q[1..], at);
    }
  }

  /** What one event does with the user packets of `k`. */
  function Acts(env: Env, t: Tunnel, e: Event, k: Addr): seq<Act>
    requires Legal(e)
  {
    var eff := EffectOn(env, t, e, k);
    if e.Tx? && eff == Sent then [SentAtOnce(Entry(t, k).mapping, e.packet)]
    else if e.Rx? && Reaches(t, e.from) && eff.Replied? then
      DrainedBy(Entry(t, k).queue, eff.at) + if eff.deliver then [DeliveredAtOnce(Proper(e.from.ip6))] else []
    else []
  }

  function Log(env: Env, t: Tunnel, es: seq<Event>, k: Addr): seq<Act>
    requires AllLegal(es)
  {
    if |es| == 0 then []
    else
      var n := |es| - 1;
      Log(env, t, es[..n], k) + Acts(env, Run(env, t, es[..n]), es[n], k)
  }

  // --- queued packets are those of their entry ---------------------------------------------------------------

  predicate Belongs(q: Queued, k: Addr) {
    |q.data| >= 40 && (if q.incoming then Source(q.data) else Destination(q.data)) == k
  }

  ghost predicate OwnQueue(q: seq<Queued>, k: Addr) {
    forall x :: x in q ==> Belongs(x, k)
  }

  lemma TriedBelongs(env: Env, t: Tunnel, e: Event, k: Addr)
    requires Legal(e) && EffectOn(env, t, e, k).Tried?
    ensures Belongs(EffectOn(env, t, e, k).q, k)
  {
    hide Source, Destination, Judge, Suspected, TxEntry, L.Lookup, Gate, Admitted, ForMaintenance, Proper;
    if e.Rx? {
      ProperSource(e.from.ip6);
    }
  }

  lemma {:induction false} RunOwnsQueue(env: Env, t: Tunnel, es: seq<Event>, k: Addr)
    requires AllLegal(es) && t.list.peers == map[]
    ensures OwnQueue(Entry(Run(env, t, es), k).queue, k)
  {
    hide Step, EffectOn, SameCounters, CountPing, CountBubble, Belongs;
    if |es| > 0 {
      var n := |es| - 1;
      var t' := Run(env, t, es[..n]);
      RunOwnsQueue(env, t, es[..n], k);
      StepFollows(env, t', es[n], k);
      if EffectOn(env, t', es[n], k).Tried? {
        TriedBelongs(env, t', es[n], k);
      }
    }
  }

  lemma {:induction false} DrainOwn(q: seq<Queued>, at: Endpoint, k: Addr)
    requires OwnQueue(q, k)
    ensures forall o :: o in Drain(q, at) ==> UserPacket(o, k)
  {
    hide Source, Destination;
    if |q| > 0 {
      assert q[0] in q && forall x :: x in q[1..] ==> x in q;
      DrainOwn(q[1..], at, k);
    }
  }

  // --- one step -------------------------------------------------------------------------------------------------

  /** A transmission emits a user packet only if it goes straight to its destination. */
  lemma TransmitTraced(env: Env, t: Tunnel, e: Event, k: Addr)
    requires e.Tx? && Legal(e)
    ensures Of(Step(env, t, e).1, k) == Emissions(Acts(env, t, e, k))
  {
    hide Step, TxEffect, Destination, Source, BubbleToward, SendPing, Ping, Bubble;
    TransmissionOutputs(env, t, e);
    var os, dst := Step(env, t, e).1, Destination(e.packet);
    if dst != k {
      Elsewhere(env, t, e, k);
    }
    ControlKinds(env, e.time, t.state.addr, dst);
    if EffectOn(env, t, e, dst) == Sent {
      assert os[1..] == [];
      if dst == k {
        assert Acts(env, t, e, k)[1..] == [];
      }
    } else {
      OfNone(os, k);
    }
  }

  lemma FirstReplyControl(t: Tunnel, p: Packet)
    ensures forall o :: o in FirstReply(t, p) ==> o.Control?
  {
    hide Bubble, IsGlobalUnicast, Rendezvous, ForMaintenance, WellFormed;
  }

  /** A reception emits user packets only if it is a reply, or comes from a trusted endpoint. */
  lemma ReceiveTraced(env: Env, t: Tunnel, e: Event, k: Addr)
    requires e.Rx? && (|e.from.ip6| >= 40 ==> OwnQueue(Entry(t, Source(e.from.ip6)).queue, Source(e.from.ip6)))
    ensures Of(Step(env, t, e).1, k) == Emissions(Acts(env, t, e, k))
  {
    hide Step, RxEffect, Destination, Source, SendPing, FirstReply, Drain, Reaches, Proper, OwnQueue, ForMaintenance;
    var os, first := Step(env, t, e).1, FirstReply(t, e.from);
    ReceptionOutputs(env, t, e);
    FirstReplyControl(t, e.from);
    OfNone(first, k);
    if !Reaches(t, e.from) {
      Elsewhere(env, t, e, k);
      OfNone(os, k);
      return;
    }
    ReachesIs(t, e.from);
    var src := Source(e.from.ip6);
    ControlKinds(env, e.time, t.state.addr, src);
    var eff := EffectOn(env, t, e, src);
    if src != k {
      Elsewhere(env, t, e, k);
    }
    if eff.Replied? {
      var d, r := Drain(Entry(t, src).queue, eff.at), if eff.deliver then [Deliver(Proper(e.from.ip6))] else [];
      DrainOwn(Entry(t, src).queue, eff.at, src);
      ProperSource(e.from.ip6);
      assert forall o :: o in d + r ==> UserPacket(o, src);
      OfConcat(first, d + r, k);
      if src == k {
        OfAll(d + r, k);
        DrainIsEmission(Entry(t, k).queue, eff.at);
        DeliverIsEmission(e.from.ip6, eff.deliver);
        EmissionsConcat(DrainedBy(Entry(t, k).queue, eff.at),
                        if eff.deliver then [DeliveredAtOnce(Proper(e.from.ip6))] else []);
      } else {
        OfNone(d + r, k);
      }
    } else {
      OfNone(os, k);
    }
  }

  lemma DeliverIsEmission(ip6: seq<Byte>, deliver: bool)
    requires WellFormed(ip6)
    ensures Emissions(if deliver then [DeliveredAtOnce(Proper(ip6))] else [])
            == if deliver then [Deliver(Proper(ip6))] else []
  {
    var a := [DeliveredAtOnce(Proper(ip6))];
    assert a[1..] == [];
  }

  lemma StepTraced(env: Env, t: Tunnel, e: Event, k: Addr)
    requires Legal(e)
    requires e.Rx? && |e.from.ip6| >= 40 ==> OwnQueue(Entry(t, Source(e.from.ip6)).queue, Source(e.from.ip6))
    ensures Of(Step(env, t, e).1, k) == Emissions(Acts(env, t, e, k))
  {
    hide Transmit, Receive, TxEffect, RxEffect, OwnQueue, Source;
    match e {
      case Tx(_, _, _, _, _) => TransmitTraced(env, t, e, k);
      case Rx(_, _, _, _, _) => ReceiveTraced(env, t, e, k);
      case Change(_) => OfNone(Step(env, t, e).1, k);
      case Sweep =>
      case Configure(_, _) =>
      case See(_) =>
    }
  }

  /** In every run, the user packets of `k` that were sent and delivered are, in this order and
      nothing else: those sent straight to its mapping, those delivered as they came in, and those
      drained from its queue, less the incoming ones that came from elsewhere. */
  lemma {:induction false} TraceIsLog(env: Env, t: Tunnel, es: seq<Event>, k: Addr)
    requires AllLegal(es) && t.list.peers == map[]
    ensures Trace(env, t, es, k) == Emissions(Log(env, t, es, k))
  {
    hide Step, Acts, Emissions, Of, Source, OwnQueue;
    if |es| > 0 {
      var n := |es| - 1;
      var t', e := Run(env, t, es[..n]), es[n];
      TraceIsLog(env, t, es[..n], k);
      if e.Rx? && |e.from.ip6| >= 40 {
        RunOwnsQueue(env, t, es[..n], Source(e.from.ip6));
      }
      StepTraced(env, t', e, k);
      EmissionsConcat(Log(env, t, es[..n], k), Acts(env, t', e, k));
    } else {
      assert Emissions([]) == [] by { NoEmissions(); }
    }
  }

  lemma NoEmissions()
    ensures Emissions([]) == []
  {
  }
  // --- conservation -------------------------------------------------------------------------------------------

  /** Packets of `k` accepted into its queue, drained by a reply, and freed with their entry. */
  datatype Account = Account(taken: multiset<Queued>, drained: multiset<Queued>, freed: multiset<Queued>)

  function Book(a: Account, p: Peer, eff: Effect): Account {
    match eff
    case Tried(q, _, _) => if |q.data| <= p.queueLeft then a.(taken := a.taken + multiset{q}) else a
    case Replied(_, _) => a.(drained := a.drained + multiset(p.queue))
    case Freed => a.(freed := a.freed + multiset(p.queue))
    case _ => a
  }

  function Books(env: Env, t: Tunnel, es: seq<Event>, k: Addr): Account
    requires AllLegal(es)
  {
    if |es| == 0 then Account(multiset{}, multiset{}, multiset{})
    else
      var n := |es| - 1;
      var t' := Run(env, t, es[..n]);
      Book(Books(env, t, es[..n], k), Entry(t', k), EffectOn(env, t', es[n], k))
  }

  /** What arrived since the queue was last emptied, oldest first. */
  function Waiting(env: Env, t: Tunnel, es: seq<Event>, k: Addr): seq<Queued>
    requires AllLegal(es)
  {
    if |es| == 0 then []
    else
      var n := |es| - 1;
      var t' := Run(env, t, es[..n]);
      var w := Waiting(env, t, es[..n], k);
      match EffectOn(env, t', es[n], k)
      case Tried(q, _, _) => if |q.data| <= Entry(t', k).queueLeft then w + [q] else w
      case Replied(_, _) => []
      case Freed => []
      case _ => w
  }

  ghost predicate Balanced(a: Account, p: Peer) {
    && a.taken == multiset(p.queue) + a.drained + a.freed
    && QueueInv(p)
    && CountersInv(p)
  }

  lemma CountersKept(p: Peer, eff: Effect, now: Clock, p': Peer)
    requires CountersInv(p) && Follows(p, eff, now, p')
    ensures CountersInv(p')
  {
    hide Elapsed, Enqueue;
  }

  lemma QueueKept(p: Peer, eff: Effect, now: Clock, p': Peer)
    requires QueueInv(p) && Follows(p, eff, now, p')
    ensures QueueInv(p')
  {
    hide CountPing, CountBubble, SameCounters, Enqueue;
  }

  lemma BookBalanced(a: Account, p: Peer, eff: Effect, now: Clock, p': Peer)
    requires Balanced(a, p) && Follows(p, eff, now, p')
    ensures Balanced(Book(a, p, eff), p')
  {
    hide CountPing, CountBubble, SameCounters, CountersInv, QueueInv;
    CountersKept(p, eff, now, p');
    QueueKept(p, eff, now, p');
    if eff.Tried? && |eff.q.data| <= p.queueLeft {
      assert multiset([eff.q] + p.queue) == multiset{eff.q} + multiset(p.queue);
    }
  }

  lemma WaitingStep(w: seq<Queued>, p: Peer, eff: Effect, now: Clock, p': Peer)
    requires Arrived(p.queue) == w && Follows(p, eff, now, p')
    ensures Arrived(p'.queue) == match eff
                                 case Tried(q, _, _) => if |q.data| <= p.queueLeft then w + [q] else w
                                 case Replied(_, _) => []
                                 case Freed => []
                                 case _ => w
  {
    hide CountPing, CountBubble;
    if eff.Tried? && |eff.q.data| <= p.queueLeft {
      assert ([eff.q] + p.queue)[1..] == p.queue;
    }
  }

  lemma {:induction false} RunBalanced(env: Env, t: Tunnel, es: seq<Event>, k: Addr)
    requires AllLegal(es) && t.list.peers == map[]
    ensures Balanced(Books(env, t, es, k), Entry(Run(env, t, es), k))
    ensures Arrived(Entry(Run(env, t, es), k).queue) == Waiting(env, t, es, k)
  {
    hide Step, EffectOn, Follows, Book, Balanced;
    if |es| > 0 {
      var n := |es| - 1;
      var t' := Run(env, t, es[..n]);
      RunBalanced(env, t, es[..n], k);
      StepFollows(env, t', es[n], k);
      var eff, p, p' := EffectOn(env, t', es[n], k), Entry(t', k), Entry(Run(env, t, es), k);
      BookBalanced(Books(env, t, es[..n], k), p, eff, ClockOf(es[n]), p');
      WaitingStep(Waiting(env, t, es[..n], k), p, eff, ClockOf(es[n]), p');
    } else {
      NothingYet(env, t, k);
    }
  }

  lemma NothingYet(env: Env, t: Tunnel, k: Addr)
    requires t.list.peers == map[]
    ensures Balanced(Books(env, t, [], k), Entry(t, k)) && Entry(t, k).queue == []
  {
  }

  function TakenOut(a: Act): seq<Queued> {
    if a.Drained? then [a.q] else []
  }

  /** The queued packets among those handled. */
  function FromQueue(acts: seq<Act>): seq<Queued> {
    if |acts| == 0 then [] else TakenOut(acts[0]) + FromQueue(acts[1..])
  }

  lemma {:induction false} FromQueueConcat(a: seq<Act>, b: seq<Act>)
    ensures FromQueue(a + b) == FromQueue(a) + FromQueue(b)
  {
    hide TakenOut;
    if |a| == 0 {
      assert a + b == b;
    } else {
      assert (a + b)[1..] == a[1..] + b;
      FromQueueConcat(a[1..], b);
    }
  }

  lemma {:induction false} FromQueueDrained(q: seq<Queued>, at: Endpoint)
    ensures FromQueue(DrainedBy(q, at)) == q
  {
    if |q| > 0 {
      assert DrainedBy(q, at)[1..] == DrainedBy(q[1..], at);
      FromQueueDrained(q[1..], at);
    }
  }

  /** A step drains the whole queue or nothing. */
  lemma ActsDrain(env: Env, t: Tunnel, e: Event, k: Addr)
    requires Legal(e)
    ensures FromQueue(Acts(env, t, e, k)) == if EffectOn(env, t, e, k).Replied? then Entry(t, k).queue else []
  {
    var eff := EffectOn(env, t, e, k);
    if eff.Replied? {
      assert e.Rx? && Reaches(t, e.from);
      hide Source, Reaches, Proper, RxEffect, TxEffect, Judge;
      var q := Entry(t, k).queue;
      var r := if eff.deliver then [DeliveredAtOnce(Proper(e.from.ip6))] else [];
      FromQueueDrained(q, eff.at);
      FromQueueConcat(DrainedBy(q, eff.at), r);
    }
  }

  lemma {:induction false} BooksMatchLog(env: Env, t: Tunnel, es: seq<Event>, k: Addr)
    requires AllLegal(es)
    ensures Books(env, t, es, k).drained == multiset(FromQueue(Log(env, t, es, k)))
  {
    hide Step, EffectOn, Acts, Entry, FromQueue;
    if |es| > 0 {
      var n := |es| - 1;
      var t' := Run(env, t, es[..n]);
      BooksMatchLog(env, t, es[..n], k);
      ActsDrain(env, t', es[n], k);
      FromQueueConcat(Log(env, t, es[..n], k), Acts(env, t', es[n], k));
    } else {
      assert FromQueue([]) == [] by { NoneFromQueue(); }
    }
  }

  lemma NoneFromQueue()
    ensures FromQueue([]) == []
  {
  }

  /** In every run, for every peer: each packet ever accepted into the queue is still there, was
      drained by a reply, or was freed with its entry, and what was sent and delivered is exactly
      what was sent at once, delivered at once, or drained and not dropped for an endpoint mismatch;
      the queue is the arrivals since it was last emptied, newest first; its bytes and the room left
      always make 1280; and the 3-bit counters stay within 0 to 4. */
  lemma Conservation(env: Env, t: Tunnel, es: seq<Event>, k: Addr)
    requires AllLegal(es) && t.list.peers == map[]
    ensures var a, p, log := Books(env, t, es, k), Entry(Run(env, t, es), k), Log(env, t, es, k);
            && a.taken == multiset(p.queue) + multiset(FromQueue(log)) + a.freed
            && Trace(env, t, es, k) == Emissions(log)
            && Arrived(p.queue) == Waiting(env, t, es, k)
            && QueueInv(p) && CountersInv(p)
  {
    hide Run, Books, Log, Trace, Waiting, Entry, Arrived, QueueInv, CountersInv;
    RunBalanced(env, t, es, k);
    BooksMatchLog(env, t, es, k);
    TraceIsLog(env, t, es, k);
  }
}

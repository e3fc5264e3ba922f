/** Rate limits over whole runs, on what leaves the tunnel (section 5.2.6 of RFC 4380). */
module RateLimiting {
  import opened Bytes
  import opened Addresses
  import opened Encapsulation
  import opened Packets
  import opened Peers
  import opened Tunnels
  import opened EntryHistory
  import HP = HolePunching
  import L = PeerLists

  // --- what the counters grant --------------------------------------------------------------------------------

  /** The uses of the counters that a run makes for `k`. */
  function Uses(env: Env, t: Tunnel, es: seq<Event>, k: Addr): seq<Use>
    requires AllLegal(es)
  {
    if |es| == 0 then []
    else
      var n := |es| - 1;
      Uses(env, t, es[..n], k)
      + match EffectOn(env, Run(env, t, es[..n]), es[n], k)
        case Sent => [Sending(ClockOf(es[n]))]
        case Tried(_, bubble, _) => [if bubble then Bubbling(ClockOf(es[n])) else Pinging(ClockOf(es[n]))]
        case _ => []
  }

  /** When the counters of `k` granted a bubble (or a ping). */
  function Grants(env: Env, t: Tunnel, es: seq<Event>, k: Addr, bubble: bool): seq<Clock>
    requires AllLegal(es)
  {
    if |es| == 0 then []
    else
      var n := |es| - 1;
      var eff := EffectOn(env, Run(env, t, es[..n]), es[n], k);
      Grants(env, t, es[..n], k, bubble)
      + if eff.Tried? && eff.bubble == bubble && eff.v == Granted then [ClockOf(es[n])] else []
  }

  /** Nothing replies for `k` and its entry is not freed. */
  ghost predicate Quiet(env: Env, t: Tunnel, es: seq<Event>, k: Addr)
    requires AllLegal(es)
  {
    forall i :: 0 <= i < |es| ==>
      !EffectOn(env, Run(env, t, es[..i]), es[i], k).Replied? && !EffectOn(env, Run(env, t, es[..i]), es[i], k).Freed?
  }

  lemma {:induction false} UsesMatch(env: Env, t: Tunnel, es: seq<Event>, k: Addr)
    requires AllLegal(es) && Quiet(env, t, es, k)
    ensures SameCounters(Entry(Run(env, t, es), k), After(Entry(t, k), Uses(env, t, es, k)))
    ensures Grants(env, t, es, k, true) == Bubbles(Entry(t, k), Uses(env, t, es, k))
    ensures Grants(env, t, es, k, false) == Pings(Entry(t, k), Uses(env, t, es, k))
  {
    hide Step, EffectOn, CountPing, CountBubble, Enqueue, SameCounters, Quiet;
    if |es| > 0 {
      var n := |es| - 1;
      var t', e := Run(env, t, es[..n]), es[n];
      QuietBefore(env, t, es, k);
      UsesMatch(env, t, es[..n], k);
      StepFollows(env, t', e, k);
      var us, more := Uses(env, t, es[..n], k), Uses(env, t, es, k);
      var p, p', q := Entry(t', k), Entry(Run(env, t, es), k), After(Entry(t, k), us);
      if |more| > |us| {
        var u := more[|us|];
        assert more[..|us|] == us && |more| == |us| + 1;
        UseAlike(p, q, u);
        SameStill(p', Apply(p, u), Apply(q, u));
      } else {
        assert more == us;
        SameStill(p', p, q);
      }
    } else {
      SameAsItself(Entry(t, k));
    }
  }

  lemma SameStill(p: Peer, q: Peer, r: Peer)
    requires SameCounters(p, q) && SameCounters(q, r)
    ensures SameCounters(p, r)
  {
  }

  lemma SameAsItself(p: Peer)
    ensures SameCounters(p, p)
  {
  }

  lemma QuietBefore(env: Env, t: Tunnel, es: seq<Event>, k: Addr)
    requires AllLegal(es) && |es| > 0 && Quiet(env, t, es, k)
    ensures Quiet(env, t, es[..|es| - 1], k)
    ensures var eff := EffectOn(env, Run(env, t, es[..|es| - 1]), es[|es| - 1], k); !eff.Replied? && !eff.Freed?
  {
    hide Run, EffectOn;
    var f := es[..|es| - 1];
    assert forall i :: 0 <= i < |f| ==> f[..i] == es[..i] && f[i] == es[i];
  }

  predicate Timed(e: Event) { e.Tx? || e.Rx? }

  /** The clock does not go backwards. */
  ghost predicate ClockRuns(es: seq<Event>) {
    forall i, j :: 0 <= i <= j < |es| && Timed(es[i]) && Timed(es[j]) ==> ClockOf(es[i]) <= ClockOf(es[j])
  }

  lemma ClockBefore(es: seq<Event>)
    requires |es| > 0 && ClockRuns(es)
    ensures ClockRuns(es[..|es| - 1])
  {
    var f := es[..|es| - 1];
    assert forall i :: 0 <= i < |f| ==> f[i] == es[i];
  }

  /** Uses come in the order of the clock, none later than `now`. */
  ghost predicate UsedBy(us: seq<Use>, now: Clock) {
    Monotone(us) && forall i :: 0 <= i < |us| ==> us[i].at <= now
  }

  lemma UsedMore(us: seq<Use>, early: Clock, u: Use)
    requires UsedBy(us, early) && early <= u.at
    ensures UsedBy(us + [u], u.at)
  {
    var more := us + [u];
    forall i, j | 0 <= i <= j < |more|
      ensures more[i].at <= more[j].at
    {
      if j < |us| {
        assert more[i] == us[i] && more[j] == us[j];
      } else if i < |us| {
        assert more[i] == us[i];
      }
    }
  }

  lemma UsedLater(us: seq<Use>, early: Clock, now: Clock)
    requires UsedBy(us, early) && early <= now
    ensures UsedBy(us, now)
  {
    hide Monotone;
  }

  /** The time of the last event that has one. */
  function LastTime(es: seq<Event>): Clock {
    if |es| == 0 then 0
    else if Timed(es[|es| - 1]) then ClockOf(es[|es| - 1])
    else LastTime(es[..|es| - 1])
  }

  lemma {:induction false} LastTimeIsLast(es: seq<Event>, c: Clock)
    requires forall i :: 0 <= i < |es| && Timed(es[i]) ==> ClockOf(es[i]) <= c
    ensures LastTime(es) <= c
  {
    if |es| > 0 && !Timed(es[|es| - 1]) {
      LastTimeIsLast(es[..|es| - 1], c);
    }
  }

  /** The last event adds at most one use, at its own time. */
  lemma UsesStep(env: Env, t: Tunnel, es: seq<Event>, k: Addr)
    requires AllLegal(es) && |es| > 0
    ensures var n := |es| - 1;
            var us, more := Uses(env, t, es[..n], k), Uses(env, t, es, k);
            more == us || (Timed(es[n]) && exists u: Use :: u.at == ClockOf(es[n]) && more == us + [u])
  {
    hide Run, TxEffect, RxEffect;
  }

  lemma {:induction false} UsesMonotone(env: Env, t: Tunnel, es: seq<Event>, k: Addr)
    requires AllLegal(es) && ClockRuns(es)
    ensures UsedBy(Uses(env, t, es, k), LastTime(es))
  {
    if |es| == 0 {
      return;
    }
    var n := |es| - 1;
    var f, now := es[..n], LastTime(es);
    ClockBefore(es);
    UsesStep(env, t, es, k);
    if Timed(es[n]) {
      LastTimeIsLast(f, now);
    }
    hide Uses, Run, ClockRuns, UsedBy;
    UsesMonotone(env, t, f, k);
    UsedLater(Uses(env, t, f, k), LastTime(f), now);
    if Uses(env, t, es, k) != Uses(env, t, f, k) {
      var u: Use :| u.at == ClockOf(es[n]) && Uses(env, t, es, k) == Uses(env, t, f, k) + [u];
      UsedMore(Uses(env, t, f, k), now, u);
    }
  }

  /** At least 3 seconds apart, and any five span more than 300 seconds. */
  ghost predicate BubblesSpaced(g: seq<Clock>) {
    && (forall i :: 0 <= i < |g| - 1 ==> Gap(g, i) >= 3)
    && (forall i :: 0 <= i < |g| - 4 ==> Span(g, i) > 300)
  }

  function Span(g: seq<Clock>, i: nat): int
    requires i + 4 < |g|
  {
    g[i + 4] as int - g[i] as int
  }

  /** At most four, at least 3 seconds apart. */
  ghost predicate PingsSpaced(g: seq<Clock>) {
    |g| <= 4 && forall i :: 0 <= i < |g| - 1 ==> Gap(g, i) >= 3
  }

  /** Between replies and for one entry, what the counters grant is limited. */
  lemma GrantsSpaced(env: Env, t: Tunnel, es: seq<Event>, k: Addr)
    requires AllLegal(es) && ClockRuns(es) && Quiet(env, t, es, k)
    requires Entry(t, k).bubbles == Entry(t, k).pings == 0
    ensures BubblesSpaced(Grants(env, t, es, k, true)) && PingsSpaced(Grants(env, t, es, k, false))
  {
    hide Uses, Grants, Step, Run, Bubbles, Pings, Peers.After, Quiet, ClockRuns, Monotone;
    UsesMatch(env, t, es, k);
    UsesMonotone(env, t, es, k);
    var us, p := Uses(env, t, es, k), Entry(t, k);
    var g := Bubbles(p, us);
    forall i | 0 <= i < |g|
      ensures (i + 1 < |g| ==> Gap(g, i) >= 3) && (i + 4 < |g| ==> Span(g, i) > 300)
    {
      BubbleRate(p, us, i);
    }
    PingRate(p, us, LastTime(es));
  }

  // --- what is sent ---------------------------------------------------------------------------------------------

  predicate IsPing(o: Out, k: Addr) {
    o.Control? && |o.packet| >= 40 && NextHeader(o.packet) == ICMPV6 && Destination(o.packet) == k
  }

  predicate IsBubbleFor(o: Out, k: Addr) {
    o.Control? && |o.packet| >= 40 && IsBubble(o.packet) && Destination(o.packet) == k
  }

  /** The pings for `k` among the outputs of one step. */
  function PingsFor(os: seq<Out>, k: Addr): seq<Out> {
    if |os| == 0 then [] else (if IsPing(os[0], k) then [os[0]] else []) + PingsFor(os[1..], k)
  }

  /** The bubbles for `k` among the outputs of one step. */
  function BubblesFor(os: seq<Out>, k: Addr): seq<Out> {
    if |os| == 0 then [] else (if IsBubbleFor(os[0], k) then [os[0]] else []) + BubblesFor(os[1..], k)
  }

  lemma {:induction false} PartsConcat(a: seq<Out>, b: seq<Out>, k: Addr)
    ensures PingsFor(a + b, k) == PingsFor(a, k) + PingsFor(b, k)
    ensures BubblesFor(a + b, k) == BubblesFor(a, k) + BubblesFor(b, k)
  {
    hide IsPing, IsBubbleFor;
    if |a| == 0 {
      assert a + b == b;
    } else {
      assert (a + b)[1..] == a[1..] + b;
      PartsConcat(a[1..], b, k);
    }
  }

  lemma {:induction false} NoControl(os: seq<Out>, k: Addr)
    requires forall o :: o in os ==> !o.Control?
    ensures PingsFor(os, k) == [] && BubblesFor(os, k) == []
  {
    if |os| > 0 {
      NoControl(os[1..], k);
    }
  }

  lemma PingParts(env: Env, time: Word32, src: Addr, dst: Addr, k: Addr)
    ensures var os := SendPing(env, time, src, dst);
            && PingsFor(os, k) == (if k == dst then os else [])
            && BubblesFor(os, k) == []
  {
    hide Ping, Destination, PayloadLength, NextHeader;
    PingFields(env.host, env.secret, time, src, dst);
    assert SendPing(env, time, src, dst)[1..] == [];
  }

  lemma BubbleParts(to: Endpoint, src: Addr, dst: Addr, k: Addr)
    ensures var os := SendBubble(to, src, dst);
            && PingsFor(os, k) == []
            && BubblesFor(os, k) == (if k == dst then os else [])
  {
    hide Bubble, Destination, PayloadLength, NextHeader, IsGlobalUnicast;
    BubbleFields(src, dst);
    HP.BubbleHeader(src, dst);
    assert IsGlobalUnicast(to.ip) ==> SendBubble(to, src, dst)[1..] == [];
  }

  predicate GrantsNow(env: Env, t: Tunnel, e: Event, k: Addr, bubble: bool)
    requires Legal(e)
  {
    var eff := EffectOn(env, t, e, k);
    eff.Tried? && eff.bubble == bubble && eff.v == Granted
  }

  /** The bubbles of one grant: to the peer, unless we are behind a cone NAT, and to its server. */
  function BubblePair(env: Env, t: Tunnel, k: Addr): seq<Out> {
    (if IsCone(t.state.addr) then [] else BubbleToward(env, k, false)) + BubbleToward(env, k, true)
  }

  lemma PairParts(env: Env, t: Tunnel, dst: Addr, k: Addr)
    ensures var os := BubblePair(env, t, dst);
            PingsFor(os, k) == [] && BubblesFor(os, k) == if k == dst then os else []
  {
    hide SendBubble, BubbleSource, Embedded, PingsFor, BubblesFor, IsCone;
    BubbleParts(Embedded(dst), BubbleSource(env.secret, dst), dst, k);
    BubbleParts(Endpoint(dst.server, TEREDO_PORT), BubbleSource(env.secret, dst), dst, k);
    PartsConcat(if IsCone(t.state.addr) then [] else BubbleToward(env, dst, false), BubbleToward(env, dst, true), k);
    assert PingsFor([], k) == [] && BubblesFor([], k) == [] by { NoControl([], k); }
  }

  /** The guard under which a reception makes a client send a bubble that no counter limits: its
      server relayed a packet that tells, or lets it guess, a global endpoint. */
  predicate Answered(t: Tunnel, p: Packet) {
    && WellFormed(p.ip6) && t.client && !ForMaintenance(p) && t.state.up
    && IsGlobalUnicast(Rendezvous(t.state, p).ip)
  }

  predicate AnsweredFor(t: Tunnel, p: Packet, k: Addr) {
    Answered(t, p) && Source(p.ip6) == k
  }

  lemma FirstReplyIs(t: Tunnel, p: Packet)
    ensures FirstReply(t, p)
            == if Answered(t, p) then [Control(Rendezvous(t.state, p), Bubble(Destination(p.ip6), Source(p.ip6)))]
               else []
  {
    hide Rendezvous, ForMaintenance, Bubble, Source, Destination;
    if WellFormed(p.ip6) {
      assert IsGlobalUnicast(Rendezvous(t.state, p).ip) ==> Rendezvous(t.state, p).ip != 0;
    }
  }

  lemma FirstReplyParts(t: Tunnel, p: Packet, k: Addr)
    ensures PingsFor(FirstReply(t, p), k) == []
    ensures BubblesFor(FirstReply(t, p), k) == if AnsweredFor(t, p, k) then FirstReply(t, p) else []
  {
    hide Rendezvous, ForMaintenance, Bubble, Source, Destination, IsGlobalUnicast, IsBubble, NextHeader, FirstReply;
    FirstReplyIs(t, p);
    if Answered(t, p) {
      BubbleParts(Rendezvous(t.state, p), Destination(p.ip6), Source(p.ip6), k);
    }
  }

  /** What a transmission sends is what its counter grants: a ping, or bubbles, one of them through
      the server of the peer. */
  lemma TransmissionSends(env: Env, t: Tunnel, e: Event, k: Addr)
    requires e.Tx? && Legal(e)
    ensures var os := Step(env, t, e).1;
            && PingsFor(os, k)
               == (if GrantsNow(env, t, e, k, false) then SendPing(env, e.time, t.state.addr, k) else [])
            && BubblesFor(os, k) == (if GrantsNow(env, t, e, k, true) then BubblePair(env, t, k) else [])
  {
    hide Step, TxEffect, Destination, SendPing, BubbleToward, BubblePair, PingsFor, BubblesFor;
    var os, dst := Step(env, t, e).1, Destination(e.packet);
    TransmissionOutputs(env, t, e);
    if dst != k {
      Elsewhere(env, t, e, k);
    }
    var eff := EffectOn(env, t, e, dst);
    if eff.Tried? && eff.v == Granted {
      if eff.bubble {
        assert os == BubblePair(env, t, dst) by { PairIs(env, t, dst); }
        PairParts(env, t, dst, k);
      } else {
        PingParts(env, e.time, t.state.addr, dst, k);
      }
    } else {
      NoControl(os, k);
    }
  }

  lemma PairIs(env: Env, t: Tunnel, k: Addr)
    ensures BubblePair(env, t, k)
            == (if IsCone(t.state.addr) then [] else BubbleToward(env, k, false)) + BubbleToward(env, k, true)
  {
  }

  lemma {:induction false} DrainKinds(q: seq<Queued>, at: Endpoint)
    ensures forall o :: o in Drain(q, at) ==> o.Data? || o.Deliver?
  {
    if |q| > 0 {
      DrainKinds(q[1..], at);
    }
  }

  /** A reception sends a ping exactly when one is granted, and a bubble exactly under the guard. */
  lemma ReceptionSends(env: Env, t: Tunnel, e: Event, k: Addr)
    requires e.Rx?
    ensures var os := Step(env, t, e).1;
            && PingsFor(os, k)
               == (if GrantsNow(env, t, e, k, false) then SendPing(env, e.time, t.state.addr, k) else [])
            && BubblesFor(os, k) == (if AnsweredFor(t, e.from, k) then FirstReply(t, e.from) else [])
            && !GrantsNow(env, t, e, k, true)
  {
    hide Step, RxEffect, Destination, Source, SendPing, FirstReply, Drain, Reaches, Proper, Answered, PingsFor,
         BubblesFor, ForMaintenance;
    var os, first := Step(env, t, e).1, FirstReply(t, e.from);
    ReceptionOutputs(env, t, e);
    FirstReplyParts(t, e.from, k);
    NoBubbleGranted(env, t, e, k);
    if !Reaches(t, e.from) {
      Elsewhere(env, t, e, k);
      if WellFormed(e.from.ip6) && t.client && ForMaintenance(e.from) {
        NoControl(os, k);
        NotAnswered(t, e.from);
      }
      return;
    }
    ReachesIs(t, e.from);
    var src := Source(e.from.ip6);
    if src != k {
      Elsewhere(env, t, e, k);
    }
    var eff := EffectOn(env, t, e, src);
    var more := os[|first|..];
    assert os == first + more;
    PartsConcat(first, more, k);
    if eff.Replied? {
      DrainKinds(Entry(t, src).queue, eff.at);
      NoControl(more, k);
    } else if eff.Tried? && eff.v == Granted {
      PingParts(env, e.time, t.state.addr, src, k);
    } else {
      NoControl(more, k);
    }
  }

  lemma NotAnswered(t: Tunnel, p: Packet)
    requires WellFormed(p.ip6) && ForMaintenance(p)
    ensures !Answered(t, p)
  {
  }

  lemma NoBubbleGranted(env: Env, t: Tunnel, e: Event, k: Addr)
    requires e.Rx?
    ensures !GrantsNow(env, t, e, k, true)
  {
    hide Source, Reaches, Judge, Suspected, L.Lookup, Proper;
  }

  // --- over a run -----------------------------------------------------------------------------------------------

  function Repeat(c: Clock, n: nat): seq<Clock> {
    seq(n, _ => c)
  }

  /** The times at which pings for `k` left the tunnel, one for each. */
  function PingTimes(env: Env, t: Tunnel, es: seq<Event>, k: Addr): seq<Clock>
    requires AllLegal(es)
  {
    if |es| == 0 then []
    else
      PingTimes(env, t, es[..|es| - 1], k)
      + Repeat(ClockOf(es[|es| - 1]), |PingsFor(LastOut(env, t, es), k)|)
  }

  /** The times at which bubbles for `k` left the tunnel, one for each event that sent some; with or
      without those sent on receptions. */
  function BubbleTimes(env: Env, t: Tunnel, es: seq<Event>, k: Addr, receptions: bool): seq<Clock>
    requires AllLegal(es)
  {
    if |es| == 0 then []
    else
      var e := es[|es| - 1];
      BubbleTimes(env, t, es[..|es| - 1], k, receptions)
      + if (receptions || e.Tx?) && |BubblesFor(LastOut(env, t, es), k)| > 0 then [ClockOf(e)] else []
  }

  /** A granted bubble does leave: at least the one through the server. */
  lemma GrantLeaves(env: Env, t: Tunnel, e: Event, k: Addr)
    requires e.Tx? && Legal(e) && GrantsNow(env, t, e, k, true)
    ensures |BubblePair(env, t, k)| > 0
  {
    hide Destination, Source, L.Lookup, Enqueue, CountPing, CountBubble, IsMulticast, IsGlobalUnicast, Bubble,
         BubbleSource, Embedded, IsCone, Elapsed;
  }

  /** One event: pings and bubbles leave exactly when granted, and bubbles also under the guard. */
  lemma StepSends(env: Env, t: Tunnel, e: Event, k: Addr)
    requires Legal(e)
    ensures var os := Step(env, t, e).1;
            && |PingsFor(os, k)| == (if GrantsNow(env, t, e, k, false) then 1 else 0)
            && (e.Tx? ==> (|BubblesFor(os, k)| > 0 <==> GrantsNow(env, t, e, k, true)))
            && (!e.Tx? ==> (|BubblesFor(os, k)| > 0 <==> e.Rx? && AnsweredFor(t, e.from, k)))
            && (GrantsNow(env, t, e, k, true) ==> e.Tx?)
  {
    hide Transmit, Receive, TxEffect, RxEffect, PingsFor, BubblesFor, BubblePair, Answered, FirstReply, Source, Ping;
    match e {
      case Tx(_, _, _, _, _) =>
        TransmissionSends(env, t, e, k);
        if GrantsNow(env, t, e, k, true) {
          GrantLeaves(env, t, e, k);
        }
      case Rx(_, _, _, _, _) =>
        ReceptionSends(env, t, e, k);
        FirstReplyNonEmpty(t, e.from);
      case Change(_) => NoControl(Step(env, t, e).1, k);
      case Sweep => NoControl(Step(env, t, e).1, k);
      case Configure(_, _) => NoControl(Step(env, t, e).1, k);
      case See(_) => NoControl(Step(env, t, e).1, k);
    }
  }

  lemma FirstReplyNonEmpty(t: Tunnel, p: Packet)
    ensures Answered(t, p) <==> |FirstReply(t, p)| == 1
    ensures !Answered(t, p) <==> FirstReply(t, p) == []
  {
    hide Answered, FirstReply;
    FirstReplyIs(t, p);
  }

  lemma {:induction false} TimesAreGrants(env: Env, t: Tunnel, es: seq<Event>, k: Addr)
    requires AllLegal(es)
    ensures PingTimes(env, t, es, k) == Grants(env, t, es, k, false)
    ensures BubbleTimes(env, t, es, k, false) == Grants(env, t, es, k, true)
  {
    hide Step, EffectOn, PingsFor, BubblesFor, Answered, Source;
    if |es| > 0 {
      var n := |es| - 1;
      TimesAreGrants(env, t, es[..n], k);
      StepSends(env, Run(env, t, es[..n]), es[n], k);
    }
  }

  /** In every run, between replies and for one entry: the pings that leave number at most four and
      are at least 3 seconds apart; transmissions send bubbles at least 3 seconds apart, and any
      five of those times span more than 300 seconds. */
  lemma RateLimits(env: Env, t: Tunnel, es: seq<Event>, k: Addr)
    requires AllLegal(es) && ClockRuns(es) && Quiet(env, t, es, k)
    requires Entry(t, k).bubbles == Entry(t, k).pings == 0
    ensures PingsSpaced(PingTimes(env, t, es, k))
    ensures BubblesSpaced(BubbleTimes(env, t, es, k, false))
  {
    hide PingTimes, BubbleTimes, Grants, Quiet, ClockRuns, Entry, PingsSpaced, BubblesSpaced;
    TimesAreGrants(env, t, es, k);
    GrantsSpaced(env, t, es, k);
  }

  /** No reception of the run has a client answer `k` with a bubble. */
  ghost predicate Unanswered(env: Env, t: Tunnel, es: seq<Event>, k: Addr)
    requires AllLegal(es)
  {
    forall i :: 0 <= i < |es| && es[i].Rx? ==> !AnsweredFor(Run(env, t, es[..i]), es[i].from, k)
  }

  lemma UnansweredStep(env: Env, t: Tunnel, es: seq<Event>, k: Addr)
    requires AllLegal(es) && |es| > 0
    ensures var f, e := es[..|es| - 1], es[|es| - 1];
            Unanswered(env, t, es, k)
            <==> Unanswered(env, t, f, k) && (e.Rx? ==> !AnsweredFor(Run(env, t, f), e.from, k))
  {
    hide Run, AnsweredFor;
    var f := es[..|es| - 1];
    assert forall i :: 0 <= i < |f| ==> f[..i] == es[..i] && f[i] == es[i];
    if !Unanswered(env, t, f, k) {
      var i :| 0 <= i < |f| && f[i].Rx? && AnsweredFor(Run(env, t, f[..i]), f[i].from, k);
      assert es[i].Rx? && AnsweredFor(Run(env, t, es[..i]), es[i].from, k);
    }
  }

  /** Bubbles sent on receptions are not counted. The times of all bubbles are those of the
      transmissions exactly when no reception is answered. */
  lemma {:induction false} AllBubbles(env: Env, t: Tunnel, es: seq<Event>, k: Addr)
    requires AllLegal(es)
    ensures var all, limited := BubbleTimes(env, t, es, k, true), BubbleTimes(env, t, es, k, false);
            if Unanswered(env, t, es, k) then all == limited else |all| > |limited|
  {
    if |es| > 0 {
      hide Step, BubblesFor, AnsweredFor, Unanswered, GrantsNow;
      var f := es[..|es| - 1];
      AllBubbles(env, t, f, k);
      UnansweredStep(env, t, es, k);
      StepSends(env, Run(env, t, f), es[|es| - 1], k);
    }
  }

  lemma AllBubblesLimited(env: Env, t: Tunnel, es: seq<Event>, k: Addr)
    requires AllLegal(es) && ClockRuns(es) && Quiet(env, t, es, k) && Unanswered(env, t, es, k)
    requires Entry(t, k).bubbles == Entry(t, k).pings == 0
    ensures BubblesSpaced(BubbleTimes(env, t, es, k, true))
  {
    hide BubbleTimes, Quiet, ClockRuns, Entry, BubblesSpaced, Unanswered;
    AllBubbles(env, t, es, k);
    RateLimits(env, t, es, k);
  }

  /** Without that condition nothing limits them. A server that relays the same bubble `n` times at
      one clock value makes the client send `n` bubbles, although nothing replies to the entry. */
  lemma {:induction false} RepliesUnlimited(env: Env, t: Tunnel, a: Addr, destIp: Word32, now: Clock, time: Word32,
                                            alloc: bool, junk: Peer, n: nat)
    requires t.client && t.state.up && a.prefix == t.state.addr.prefix && IsGlobalUnicast(Embedded(a).ip)
    ensures var p := Packet(Endpoint(t.state.addr.server, TEREDO_PORT), destIp, None, NOWHERE, Bubble(a, t.state.addr));
            var es := seq(n, _ => Rx(p, now, time, alloc, junk));
            && AllLegal(es) && ClockRuns(es) && Quiet(env, t, es, a) && Run(env, t, es) == t
            && BubbleTimes(env, t, es, a, true) == Repeat(now, n)
  {
    hide Bubble, IsGlobalUnicast, Embedded, BubblesFor, Step, EffectOn, Quiet;
    var p := Packet(Endpoint(t.state.addr.server, TEREDO_PORT), destIp, None, NOWHERE, Bubble(a, t.state.addr));
    var e := Rx(p, now, time, alloc, junk);
    var es := seq(n, _ => e);
    RelayedBubble(env, t, a, destIp, now, time, alloc, junk);
    if n > 0 {
      var f := seq(n - 1, _ => e);
      assert es[..n - 1] == f;
      RepliesUnlimited(env, t, a, destIp, now, time, alloc, junk, n - 1);
    }
    RepeatedQuiet(env, t, e, n, a);
  }

  lemma RepeatedQuiet(env: Env, t: Tunnel, e: Event, n: nat, k: Addr)
    requires Legal(e) && Step(env, t, e).0 == t && EffectOn(env, t, e, k) == Untouched
    ensures Quiet(env, t, seq(n, _ => e), k)
  {
    hide Step, EffectOn, Run;
    var es := seq(n, _ => e);
    forall i | 0 <= i < n
      ensures EffectOn(env, Run(env, t, es[..i]), es[i], k) == Untouched
    {
      assert es[..i] == seq(i, _ => e);
      SameAfter(env, t, e, i);
    }
  }

  lemma {:induction false} SameAfter(env: Env, t: Tunnel, e: Event, n: nat)
    requires Legal(e) && Step(env, t, e).0 == t
    ensures Run(env, t, seq(n, _ => e)) == t
  {
    hide Step;
    if n > 0 {
      assert seq(n, _ => e)[..n - 1] == seq(n - 1, _ => e);
      SameAfter(env, t, e, n - 1);
    }
  }

  lemma RelayedBubble(env: Env, t: Tunnel, a: Addr, destIp: Word32, now: Clock, time: Word32, alloc: bool, junk: Peer)
    requires t.client && t.state.up && a.prefix == t.state.addr.prefix && IsGlobalUnicast(Embedded(a).ip)
    ensures var p := Packet(Endpoint(t.state.addr.server, TEREDO_PORT), destIp, None, NOWHERE, Bubble(a, t.state.addr));
            var e := Rx(p, now, time, alloc, junk);
            && Step(env, t, e).0 == t
            && EffectOn(env, t, e, a) == Untouched
            && |BubblesFor(Step(env, t, e).1, a)| == 1
  {
    hide Bubble, Source, Destination, NextHeader, PayloadLength, BubblesFor, Judge, L.Lookup, IsLinkLocal, IsMulticast,
         Receive;
    HP.PeerGuesses(env, t, a, destIp, now, time, alloc, junk);
    BubbleFields(a, t.state.addr);
    BubbleParts(Embedded(a), t.state.addr, a, a);
    assert Embedded(a).ip != 0;
  }

  // --- error rate ---------------------------------------------------------------------------------------------------

  function ErrorsIn(os: seq<Out>): nat {
    if |os| == 0 then 0 else (if os[0].Unreachable? then 1 else 0) + ErrorsIn(os[1..])
  }

  lemma {:induction false} NoErrorsIn(os: seq<Out>)
    requires forall o :: o in os ==> !o.Unreachable?
    ensures ErrorsIn(os) == 0
  {
    if |os| > 0 {
      NoErrorsIn(os[1..]);
    }
  }

  /** How many ICMPv6 errors a run reported at the clock value `c`. */
  function Errors(env: Env, t: Tunnel, es: seq<Event>, c: Clock): nat
    requires AllLegal(es)
  {
    if |es| == 0 then 0
    else
      var n := |es| - 1;
      Errors(env, t, es[..n], c) + if ClockOf(es[n]) == c then ErrorsIn(LastOut(env, t, es)) else 0
  }

  /** A step either leaves the limiter alone and reports no error, or is a limited transmission. */
  lemma LimitedStep(env: Env, t: Tunnel, e: Event)
    requires Legal(e)
    ensures var (t', os) := Step(env, t, e);
            || (t'.limiter == t.limiter && ErrorsIn(os) == 0)
            || (e.Tx?
                && var (m, ok) := Limit(t.limiter, e.now);
                   t'.limiter == m && ErrorsIn(os) == (if ok then 1 else 0))
  {
    hide Transmit, Receive, Limit;
    match e {
      case Tx(_, _, _, _, _) => LimitedTransmission(env, t, e);
      case Rx(_, _, _, _, _) => NoErrorOnReception(env, t, e);
      case Change(_) => NoErrorsIn(Step(env, t, e).1);
      case Sweep => NoErrorsIn(Step(env, t, e).1);
      case Configure(_, _) => NoErrorsIn(Step(env, t, e).1);
      case See(_) => NoErrorsIn(Step(env, t, e).1);
    }
  }

  lemma LimitedTransmission(env: Env, t: Tunnel, e: Event)
    requires e.Tx? && Legal(e)
    ensures var (t', os) := Step(env, t, e);
            || (t'.limiter == t.limiter && ErrorsIn(os) == 0)
            || var (m, ok) := Limit(t.limiter, e.now); t'.limiter == m && ErrorsIn(os) == (if ok then 1 else 0)
  {
    hide Destination, Source, L.Lookup, L.Put, TxEntry, Limit, IsMulticast, IsGlobalUnicast, SendPing, BubbleToward,
         IsCone;
    var (t', os) := Step(env, t, e);
    ControlKinds(env, e.time, t.state.addr, Destination(e.packet));
    if forall o :: o in os ==> !o.Unreachable? {
      NoErrorsIn(os);
    } else {
      assert os[1..] == [];
    }
  }

  lemma {:induction false} ErrorsConcat(a: seq<Out>, b: seq<Out>)
    ensures ErrorsIn(a + b) == ErrorsIn(a) + ErrorsIn(b)
  {
    if |a| == 0 {
      assert a + b == b;
    } else {
      assert (a + b)[1..] == a[1..] + b;
      ErrorsConcat(a[1..], b);
    }
  }

  lemma FirstReplyNoError(t: Tunnel, p: Packet)
    ensures ErrorsIn(FirstReply(t, p)) == 0
  {
    hide FirstReply, Answered;
    FirstReplyIs(t, p);
    NoErrorsIn(FirstReply(t, p));
  }

  lemma ReplyNoError(q: seq<Queued>, at: Endpoint, d: seq<Byte>, deliver: bool)
    ensures ErrorsIn(Drain(q, at) + if deliver then [Deliver(d)] else []) == 0
  {
    hide Drain;
    DrainKinds(q, at);
    NoErrorsIn(Drain(q, at) + if deliver then [Deliver(d)] else []);
  }

  lemma NoErrorOnReception(env: Env, t: Tunnel, e: Event)
    requires e.Rx?
    ensures var (t', os) := Step(env, t, e); t'.limiter == t.limiter && ErrorsIn(os) == 0
  {
    LimiterAlone(env, t, e);
    hide Step, RxEffect, Source, Destination, SendPing, FirstReply, Drain, Proper, Reaches, ForMaintenance, ErrorsIn;
    var os, first := Step(env, t, e).1, FirstReply(t, e.from);
    ReceptionOutputs(env, t, e);
    FirstReplyNoError(t, e.from);
    NoErrorsIn([Maintenance(e.from)]);
    if Reaches(t, e.from) {
      ReachesIs(t, e.from);
      var more := os[|first|..];
      assert os == first + more;
      ErrorsConcat(first, more);
      var k := Source(e.from.ip6);
      var eff := EffectOn(env, t, e, k);
      if eff.Replied? {
        ReplyNoError(Entry(t, k).queue, eff.at, Proper(e.from.ip6), eff.deliver);
      } else {
        ControlKinds(env, e.time, t.state.addr, k);
        NoErrorsIn(more);
      }
    }
  }

  lemma LimiterAlone(env: Env, t: Tunnel, e: Event)
    requires e.Rx?
    ensures Step(env, t, e).0.limiter == t.limiter
  {
    hide Source, Destination, L.Lookup, L.Put, Judge, Suspected, Proper, IsBubble, ReplyBubble, Drain, Confirmed,
         Admitted, ForMaintenance, SendPing;
  }

  ghost predicate LimiterInv(env: Env, t: Tunnel, es: seq<Event>, c: Clock)
    requires AllLegal(es)
  {
    var m := Run(env, t, es).limiter;
    && Errors(env, t, es, c) <= 10
    && (c == m.last ==> Errors(env, t, es, c) + m.count <= 10)
    && (c > m.last ==> Errors(env, t, es, c) == 0)
  }

  /** With a clock that does not go backwards, at most 10 errors are emitted per clock value. */
  lemma {:induction false} ErrorRate(env: Env, t: Tunnel, es: seq<Event>, c: Clock)
    requires AllLegal(es) && ClockRuns(es) && t.limiter.count <= 10
    requires forall i :: 0 <= i < |es| && es[i].Tx? ==> t.limiter.last <= es[i].now
    ensures LimiterInv(env, t, es, c)
    ensures Run(env, t, es).limiter.last == t.limiter.last
            || exists i :: 0 <= i < |es| && es[i].Tx? && es[i].now == Run(env, t, es).limiter.last
  {
    hide Transmit, Receive, StateChange;
    if |es| > 0 {
      var n := |es| - 1;
      var f, e := es[..n], es[n];
      ErrorRate(env, t, f, c);
      var m := Run(env, t, f).limiter;
      LimitedStep(env, Run(env, t, f), e);
      if m.last != t.limiter.last {
        var i :| 0 <= i < |f| && f[i].Tx? && f[i].now == m.last;
        assert es[i] == f[i];
      }
      if e.Tx? {
        assert es[n].now == ClockOf(es[n]);
        assert m.last <= e.now;
      }
    }
  }
}

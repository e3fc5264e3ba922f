/** One peer: its packet queue and its bubble and ping counters. */
module Peers {
  import opened Bytes
  import opened Addresses

  const MAX_QUEUE_BYTES := 1280
  const CLOCK_SPAN := 0x1_0000_0000_0000_0000

  /** A value of the seconds clock, `unsigned long`. */
  type Clock = x: int | 0 <= x < 0x1_0000_0000_0000_0000

  datatype Queued = Queued(data: seq<Byte>, from: Endpoint, incoming: bool)

  /** `teredo_peer`; the newest queued packet comes first. */
  datatype Peer = Peer(queue: seq<Queued>, queueLeft: nat, lastRx: Clock, lastTx: Clock, mapping: Endpoint,
                       trusted: bool, bubbles: nat, pings: nat, lastPing: nat)

  /** Time since `past` in unsigned arithmetic. */
  function Elapsed(now: Clock, past: Clock): Clock {
    (now - past) % CLOCK_SPAN
  }

  predicate IsValid(p: Peer, now: Clock) {
    Elapsed(now, p.lastRx) <= 30
  }

  // --- queue -------------------------------------------------------------------------------------

  function Held(q: seq<Queued>): nat {
    if |q| == 0 then 0 else |q[0].data| + Held(q[1..])
  }

  /** What the queue holds and what it may still take add up. */
  predicate QueueInv(p: Peer) {
    p.queueLeft + Held(p.queue) == MAX_QUEUE_BYTES
  }

  function Enqueue(p: Peer, q: Queued): (r: Peer)
    ensures QueueInv(p) ==> QueueInv(r)
  {
    if |q.data| > p.queueLeft then p
    else p.(queue := [q] + p.queue, queueLeft := p.queueLeft - |q.data|)
  }

  function EnqueueOut(p: Peer, data: seq<Byte>): Peer {
    Enqueue(p, Queued(data, Endpoint(0, 0), false))
  }

  function EnqueueIn(p: Peer, data: seq<Byte>, from: Endpoint): Peer {
    Enqueue(p, Queued(data, from, true))
  }

  // --- counters ------------------------------------------------------------------------------------

  datatype Verdict = Granted | Later | Never

  /** `CountPing`; both fields are bit-fields, of 3 and 9 bits. */
  function CountPing(p: Peer, now: Clock): (r: (Peer, Verdict)) {
    var v := if p.pings == 0 then Granted
             else if p.pings >= 4 then Never
             else if (now - p.lastPing) % 0x200 <= 2 then Later
             else Granted;
    (if v == Granted then p.(lastPing := now % 0x200, pings := (p.pings + 1) % 8) else p, v)
  }

  /** `CountBubble`; the counter has 3 bits. */
  function CountBubble(p: Peer, now: Clock): (r: (Peer, Verdict)) {
    var v := if p.bubbles == 0 then Granted
             else if p.bubbles >= 4 then if Elapsed(now, p.lastTx) <= 300 then Never else Granted
             else if Elapsed(now, p.lastTx) <= 2 then Later
             else Granted;
    var sent := if p.bubbles >= 4 then 0 else p.bubbles;
    (if v == Granted then p.(lastTx := now, bubbles := (sent + 1) % 8) else p, v)
  }

  predicate CountersInv(p: Peer) {
    p.bubbles <= 4 && p.pings <= 4
  }

  // --- rate limits -----------------------------------------------------------------------------------

  /** What a transmission or reception does to the counters of an entry, short of a reply. */
  datatype Use = Bubbling(at: Clock) | Pinging(at: Clock) | Sending(at: Clock)

  function Apply(p: Peer, u: Use): Peer {
    match u
    case Bubbling(at) => CountBubble(p, at).0
    case Pinging(at) => CountPing(p, at).0
    case Sending(at) => p.(lastTx := at)
  }

  function After(p: Peer, us: seq<Use>): Peer {
    if |us| == 0 then p else Apply(After(p, us[..|us| - 1]), us[|us| - 1])
  }

  /** When bubbles were granted. */
  function Bubbles(p: Peer, us: seq<Use>): seq<Clock> {
    if |us| == 0 then []
    else
      var n := |us| - 1;
      var before := Bubbles(p, us[..n]);
      if us[n].Bubbling? && CountBubble(After(p, us[..n]), us[n].at).1 == Granted then before + [us[n].at] else before
  }

  /** When pings were granted. */
  function Pings(p: Peer, us: seq<Use>): seq<Clock> {
    if |us| == 0 then []
    else
      var n := |us| - 1;
      var before := Pings(p, us[..n]);
      if us[n].Pinging? && CountPing(After(p, us[..n]), us[n].at).1 == Granted then before + [us[n].at] else before
  }

  predicate Monotone(us: seq<Use>) {
    forall i, j :: 0 <= i <= j < |us| ==> us[i].at <= us[j].at
  }

  function Gap(g: seq<Clock>, i: nat): int
    requires i + 1 < |g|
  {
    g[i + 1] as int - g[i] as int
  }

  /** Grant number n is the fourth of its group of four. */
  predicate ClosesGroup(n: nat) { n % 4 == 3 }

  ghost predicate Spaced(g: seq<Clock>) {
    forall i :: 0 <= i < |g| - 1 ==> Gap(g, i) >= if ClosesGroup(i) then 301 else 3
  }

  lemma SpacedMore(g: seq<Clock>, now: Clock)
    requires Spaced(g)
    requires |g| > 0 ==> now - g[|g| - 1] >= if ClosesGroup(|g| - 1) then 301 else 3
    ensures Spaced(g + [now])
  {
    var more := g + [now];
    forall i | 0 <= i < |more| - 1
      ensures Gap(more, i) >= if ClosesGroup(i) then 301 else 3
    {
      if i < |g| - 1 {
        assert Gap(more, i) == Gap(g, i);
      }
    }
  }

  lemma {:induction false} SpacedOrder(g: seq<Clock>, i: nat, j: nat)
    requires Spaced(g) && i <= j < |g|
    ensures g[i] <= g[j]
    decreases j - i
  {
    if i < j {
      assert Gap(g, i) >= 3;
      SpacedOrder(g, i + 1, j);
    }
  }

  lemma ElapsedPlain(now: Clock, past: Clock)
    requires past <= now
    ensures Elapsed(now, past) == now - past
  {
  }

  ghost predicate BubbleInv(p: Peer, g: seq<Clock>, now: Clock) {
    && Spaced(g)
    && p.bubbles == (if |g| == 0 then 0 else (|g| - 1) % 4 + 1)
    && (|g| > 0 ==> g[|g| - 1] <= p.lastTx <= now)
  }

  lemma GroupOfFour(n: nat)
    requires n > 0
    ensures n % 4 == if ClosesGroup(n - 1) then 0 else (n - 1) % 4 + 1
  {
  }

  lemma GroupEnd(i: nat) returns (k: nat)
    ensures ClosesGroup(k) && i <= k < i + 4
  {
    k := i + 3 - i % 4;
  }

  lemma BubbleStep(p: Peer, g: seq<Clock>, now: Clock)
    requires BubbleInv(p, g, now)
    ensures var (r, v) := CountBubble(p, now);
            BubbleInv(r, if v == Granted then g + [now] else g, now)
  {
    var v := CountBubble(p, now).1;
    if |g| > 0 {
      ElapsedPlain(now, p.lastTx);
      GroupOfFour(|g|);
    }
    if v == Granted {
      SpacedMore(g, now);
    }
  }

  lemma OtherUse(p: Peer, g: seq<Clock>, u: Use)
    requires BubbleInv(p, g, u.at) && !u.Bubbling?
    ensures BubbleInv(Apply(p, u), g, u.at)
  {
    hide Spaced;
  }

  lemma LaterStill(p: Peer, g: seq<Clock>, early: Clock, now: Clock)
    requires BubbleInv(p, g, early) && early <= now
    ensures BubbleInv(p, g, now)
  {
    hide Spaced;
  }

  lemma {:induction false} BubbleInvHolds(p: Peer, us: seq<Use>, now: Clock)
    requires p.bubbles == 0 && Monotone(us) && (forall i :: 0 <= i < |us| ==> us[i].at <= now)
    ensures BubbleInv(After(p, us), Bubbles(p, us), now)
  {
    if |us| == 0 {
      return;
    }
    hide CountBubble, CountPing, BubbleInv;
    var n := |us| - 1;
    var r, g := After(p, us[..n]), Bubbles(p, us[..n]);
    BubbleInvHolds(p, us[..n], us[n].at);
    if us[n].Bubbling? {
      BubbleStep(r, g, us[n].at);
    } else {
      OtherUse(r, g, us[n]);
    }
    LaterStill(After(p, us), Bubbles(p, us), us[n].at, now);
  }

  /** Section 5.2.6 of RFC 4380: between replies, bubbles are at least 3 seconds apart, any five
      of them span more than 300 seconds, and the 3-bit counter never wraps. */
  lemma BubbleRate(p: Peer, us: seq<Use>, i: nat)
    requires p.bubbles == 0 && Monotone(us)
    ensures After(p, us).bubbles <= 4
    ensures var g := Bubbles(p, us);
            && (i + 1 < |g| ==> g[i + 1] as int - g[i] as int >= 3)
            && (i + 4 < |g| ==> g[i + 4] as int - g[i] as int > 300)
  {
    hide BubbleInv, Spaced, After, Bubbles;
    var now := if |us| == 0 then 0 else us[|us| - 1].at;
    BubbleInvHolds(p, us, now);
    BubbleInvMeans(After(p, us), Bubbles(p, us), now);
    var g := Bubbles(p, us);
    if i + 1 < |g| {
      SpacedGap(g, i);
    }
    if i + 4 < |g| {
      SpacedSpan(g, i);
    }
  }

  lemma BubbleInvMeans(p: Peer, g: seq<Clock>, now: Clock)
    requires BubbleInv(p, g, now)
    ensures p.bubbles <= 4 && Spaced(g)
  {
    hide Spaced;
  }

  lemma SpacedGap(g: seq<Clock>, i: nat)
    requires Spaced(g) && i + 1 < |g|
    ensures Gap(g, i) >= if ClosesGroup(i) then 301 else 3
  {
    hide ClosesGroup;
  }

  /** Among four gaps in a row, one closes a group. */
  lemma SpacedSpan(g: seq<Clock>, i: nat)
    requires Spaced(g) && i + 4 < |g|
    ensures g[i + 4] as int - g[i] as int > 300
  {
    hide ClosesGroup, Spaced;
    var k := GroupEnd(i);
    SpacedGap(g, k);
    SpacedOrder(g, i, k);
    SpacedOrder(g, k + 1, i + 4);
  }

  ghost predicate PingInv(p: Peer, g: seq<Clock>, now: Clock) {
    && |g| == p.pings <= 4
    && (forall i :: 0 <= i < |g| - 1 ==> Gap(g, i) >= 3)
    && (|g| > 0 ==> g[|g| - 1] <= now && p.lastPing == g[|g| - 1] % 0x200)
  }

  lemma PingStep(p: Peer, g: seq<Clock>, now: Clock)
    requires PingInv(p, g, now)
    ensures var (r, v) := CountPing(p, now);
            PingInv(r, if v == Granted then g + [now] else g, now)
  {
    var more := g + [now];
    if CountPing(p, now).1 == Granted && |g| > 0 {
      NineBits(now, g[|g| - 1]);
      assert now - g[|g| - 1] >= 3;
      forall i | 0 <= i < |more| - 1
        ensures Gap(more, i) >= 3
      {
        if i < |g| - 1 {
          assert Gap(more, i) == Gap(g, i);
        }
      }
    }
  }

  /** Between replies at most four pings are granted, at least 3 seconds apart although the
      entry remembers only 9 bits of the time, and the 3-bit counter never wraps. */
  lemma {:induction false} PingRate(p: Peer, us: seq<Use>, now: Clock)
    requires p.pings == 0 && Monotone(us) && (forall i :: 0 <= i < |us| ==> us[i].at <= now)
    ensures PingInv(After(p, us), Pings(p, us), now)
  {
    if |us| > 0 {
      var n := |us| - 1;
      PingRate(p, us[..n], us[n].at);
      if us[n].Pinging? {
        PingStep(After(p, us[..n]), Pings(p, us[..n]), us[n].at);
      }
    }
  }

  /** Nine bits of the past are enough to never grant too early. */
  lemma NineBits(now: int, past: int)
    requires past <= now && (now - past % 0x200) % 0x200 > 2
    ensures now - past >= 3
  {
    assert now - past % 0x200 == now - past + 0x200 * (past / 0x200);
  }

  // --- queue order -------------------------------------------------------------------------------------

  /** The queue in the order its packets arrived. */
  function Arrived(q: seq<Queued>): (r: seq<Queued>)
    ensures |r| == |q|
  {
    if |q| == 0 then [] else Arrived(q[1..]) + [q[0]]
  }
}

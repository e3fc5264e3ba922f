/** The qualification and maintenance procedure (sections 5.2.1 and 5.2.5 of RFC 4380). */
module Maintenance {
  import opened Bytes
  import opened Addresses
  import opened Encapsulation
  import opened Packets
  import opened Advertisements
  import opened Server
  import opened Qualification
  import T = Tunnels

  /** A packet taken from the mailbox, and the prefix word the result buffer held at that time. */
  datatype Taken = Taken(packet: Packet, prior: Word32)

  /** The packets that `teredo_maintenance_process` lets through. */
  predicate Submitted(x: Taken) {
    WellFormed(x.packet.ip6) && T.ForMaintenance(x.packet)
  }

  predicate AllSubmitted(xs: seq<Taken>) {
    forall i :: 0 <= i < |xs| ==> Submitted(xs[i])
  }

  datatype Offer = Offer(addr: Addr, mtu: Word16, ipv4: Word32)

  /** One round: the first acceptable advertisement; rejected ones can leave their MTU behind. */
  function Scan(host: Endian, xs: seq<Taken>, server: Word32, nonce: seq<Byte>, mtu: Word16): Option<Offer>
    requires AllSubmitted(xs)
  {
    if |xs| == 0 then None
    else
      var p := xs[0].packet;
      if p.auth != Some(Auth(nonce, false)) then Scan(host, xs[1..], server, nonce, mtu)
      else
        match ReadAdvert(host, p, false, xs[0].prior)
        case Rejected => Scan(host, xs[1..], server, nonce, mtu)
        case Accepted(addr, m) =>
          var mtu' := if 0 < m <= 0xffff then m else mtu;
          if addr.server == server then Some(Offer(addr, mtu', p.destIp))
          else Scan(host, xs[1..], server, nonce, mtu')
  }

  /** `f & htons (TEREDO_RANDOM_MASK)`: bits 10 to 13 and 0 to 7. */
  function Randomized(f: Word16): Word16 {
    f / 0x400 % 0x10 * 0x400 + f % 0x100
  }

  predicate InRandomMask(f: Word16) {
    f / 0x4000 == 0 && f / 0x100 % 4 == 0
  }

  /** What the maintenance thread remembers between rounds. */
  datatype Memory = Memory(server: Word32, count: nat, state: T.State)

  /** A step: one attempt to resolve the server's name, or one solicitation round. */
  datatype Event =
    | Resolve(answer: Option<Word32>)
    | Round(nonce: seq<Byte>, taken: seq<Taken>, random: Word16)

  /** Names are resolved while no server is known; rounds take place when one is. */
  predicate Enabled(m: Memory, e: Event) {
    match e
    case Resolve(_) => m.server == 0
    case Round(_, taken, _) => m.server != 0 && AllSubmitted(taken)
  }

  function Resolved(m: Memory, answer: Option<Word32>): (Memory, seq<T.State>) {
    if answer.Some? && IsGlobalUnicast(answer.value) then
      var s := m.state.(addr := m.state.addr.(server := answer.value));
      (m.(server := answer.value, state := s), [s])
    else (m, [])
  }

  function TimedOut(retries: nat, m: Memory): (Memory, seq<T.State>) {
    if m.count + 1 < retries then (m.(count := m.count + 1), [])
    else if m.state.up then
      var s := m.state.(up := false);
      (Memory(0, 0, s), [s])
    else (m.(count := 0), [])
  }

  function Qualified(m: Memory, o: Offer, random: Word16): (Memory, seq<T.State>) {
    var same := o.addr.(flags := m.state.addr.flags);
    var addr := if same == m.state.addr then same else o.addr.(flags := Randomized(random));
    var s := T.State(true, addr, o.mtu, o.ipv4);
    if !m.state.up || m.state.addr != addr || m.state.mtu != o.mtu then (Memory(m.server, 0, s), [s])
    else (m.(count := 0), [])
  }

  /** The new memory and the states passed to the state callback. */
  function Step(host: Endian, retries: nat, m: Memory, e: Event): (Memory, seq<T.State>)
    requires Enabled(m, e)
  {
    match e
    case Resolve(answer) => Resolved(m, answer)
    case Round(nonce, taken, random) =>
      match Scan(host, taken, m.server, nonce, 1280)
      case None => TimedOut(retries, m)
      case Some(o) => Qualified(m, o, random)
  }

  // --- the thread --------------------------------------------------------------------------------------------

  class Procedure {
    const host: Endian
    const retries: nat
    var serverIp: Word32
    var count: nat
    var cState: T.State
    /** Every state passed to the state callback. */
    var calls: seq<T.State>

    ghost function View(): Memory
      reads this
    {
      Memory(serverIp, count, cState)
    }

    constructor (host: Endian, retries: nat)
      requires retries > 0
      ensures View() == Initial() && calls == [] && this.host == host && this.retries == retries
    {
      this.host, this.retries := host, retries;
      serverIp, count := 0, 0;
      cState := T.State(false, Addr(0, 0, 0, 0, 0), 0, 0);
      calls := [];
    }

    /** One turn of the resolution loop; the assertion is the one in the code. */
    method TryResolve(answer: Option<Word32>)
      requires serverIp == 0 && Inv(retries, View())
      modifies this
      ensures var (m, cs) := Resolved(old(View()), answer); View() == m && calls == old(calls) + cs
    {
      if answer.Some? && IsGlobalUnicast(answer.value) {
        serverIp := answer.value;
        assert !cState.up;
        cState := cState.(addr := cState.addr.(server := serverIp));
        calls := calls + [cState];
      }
    }

    /** `maintenance_recv` */
    method Recv(p: Packet, nonce: seq<Byte>, newst: T.State, prior: Word32) returns (ok: bool, st: T.State)
      requires WellFormed(p.ip6) && p.auth.Some?
      ensures ok == MaintenanceAccepts(host, p, serverIp, nonce, prior)
      ensures ok ==> st.addr == ReadAdvert(host, p, false, prior).addr && st.ipv4 == p.destIp
      ensures st.up == newst.up
      ensures var r := ReadAdvert(host, p, false, prior);
              st.mtu == (if p.auth == Some(Auth(nonce, false)) && r.Accepted? && 0 < r.mtu <= 0xffff then r.mtu
                         else newst.mtu)
    {
      ok, st := false, newst;
      if p.auth.value.nonce != nonce || p.auth.value.fail {
        return;
      }
      var parsed, addr, mtu := ParseRa(host, p, false, newst.addr.(prefix := prior), newst.mtu);
      st := st.(addr := addr, mtu := mtu);
      if !parsed || addr.server != serverIp {
        return;
      }
      st := st.(ipv4 := p.destIp);
      ok := true;
    }

    /** The reception loop of a round: until an advertisement is accepted or time runs out. */
    method Listen(nonce: seq<Byte>, taken: seq<Taken>) returns (ok: bool, newst: T.State)
      requires AllSubmitted(taken)
      ensures ok == Scan(host, taken, serverIp, nonce, 1280).Some?
      ensures ok ==> var o := Scan(host, taken, serverIp, nonce, 1280).value;
                     newst == T.State(true, o.addr, o.mtu, o.ipv4)
    {
      ok := false;
      newst := T.State(true, Addr(0, 0, 0, 0, 0), 1280, 0);
      var i := 0;
      while !ok && i < |taken|
        invariant 0 <= i <= |taken| && newst.up
        invariant !ok ==> Scan(host, taken, serverIp, nonce, 1280) == Scan(host, taken[i..], serverIp, nonce, newst.mtu)
        invariant ok ==> Scan(host, taken, serverIp, nonce, 1280) == Some(Offer(newst.addr, newst.mtu, newst.ipv4))
      {
        assert Submitted(taken[i]) && taken[i..][0] == taken[i] && taken[i..][1..] == taken[i + 1..];
        ok, newst := Recv(taken[i].packet, nonce, newst, taken[i].prior);
        i := i + 1;
      }
    }

    /** A solicitation round and the update of the state machine. */
    method DoRound(nonce: seq<Byte>, taken: seq<Taken>, random: Word16)
      requires serverIp != 0 && AllSubmitted(taken)
      modifies this
      ensures var (m, cs) := Step(host, retries, old(View()), Round(nonce, taken, random));
              View() == m && calls == old(calls) + cs
    {
      var ok, newst := Listen(nonce, taken);
      if !ok {
        count := count + 1;
        if count >= retries {
          count := 0;
          if cState.up {
            cState := cState.(up := false);
            calls := calls + [cState];
            serverIp := 0;
          }
        }
      } else {
        count := 0;
        newst := newst.(addr := newst.addr.(flags := cState.addr.flags));
        if cState.addr != newst.addr {
          newst := newst.(addr := newst.addr.(flags := Randomized(random)));
        }
        if !cState.up || cState.addr != newst.addr || cState.mtu != newst.mtu {
          cState := newst;
          calls := calls + [cState];
        }
      }
    }
  }

  // --- invariants ----------------------------------------------------------------------------------------------

  function Initial(): Memory {
    Memory(0, 0, T.State(false, Addr(0, 0, 0, 0, 0), 0, 0))
  }

  ghost predicate Inv(retries: nat, m: Memory) {
    && (m.server == 0 ==> !m.state.up)
    && (m.server != 0 ==> IsGlobalUnicast(m.server))
    && InRandomMask(m.state.addr.flags)
    && (m.state.up ==> m.state.addr.server == m.server && 1280 <= m.state.mtu)
    && m.count < retries
  }

  lemma {:induction false} ScanOffers(host: Endian, xs: seq<Taken>, server: Word32, nonce: seq<Byte>, mtu: Word16)
    requires AllSubmitted(xs) && 1280 <= mtu && Scan(host, xs, server, nonce, mtu).Some?
    ensures var o := Scan(host, xs, server, nonce, mtu).value;
            o.addr.server == server && 1280 <= o.mtu
  {
    var p := xs[0].packet;
    if p.auth != Some(Auth(nonce, false)) {
      ScanOffers(host, xs[1..], server, nonce, mtu);
    } else {
      match ReadAdvert(host, p, false, xs[0].prior)
      case Rejected => ScanOffers(host, xs[1..], server, nonce, mtu);
      case Accepted(addr, m) =>
        AcceptedMtu(host, p, xs[0].prior);
        if addr.server != server {
          ScanOffers(host, xs[1..], server, nonce, if 0 < m <= 0xffff then m else mtu);
        }
    }
  }

  lemma AcceptedMtu(host: Endian, p: Packet, prior: Word32)
    requires WellFormed(p.ip6)
    ensures var r := ReadAdvert(host, p, false, prior); r.Accepted? ==> r.mtu == 0 || 1280 <= r.mtu <= 65535
  {
  }

  lemma RandomizedInMask(f: Word16)
    ensures InRandomMask(Randomized(f))
  {
    MaskOf(f / 0x400 % 0x10, f % 0x100);
  }

  lemma MaskOf(hi: int, lo: int)
    requires 0 <= hi < 0x10 && 0 <= lo < 0x100
    ensures InRandomMask(hi * 0x400 + lo)
  {
    assert (hi * 0x400 + lo) / 0x100 == 4 * hi;
  }

  lemma StepKeeps(host: Endian, retries: nat, m: Memory, e: Event)
    requires Inv(retries, m) && Enabled(m, e)
    ensures Inv(retries, Step(host, retries, m, e).0)
  {
    hide IsGlobalUnicast, Scan, AllSubmitted, Randomized, InRandomMask;
    if e.Round? {
      RandomizedInMask(e.random);
    }
    if e.Round? && Scan(host, e.taken, m.server, e.nonce, 1280).Some? {
      ScanOffers(host, e.taken, m.server, e.nonce, 1280);
    }
  }

  // --- runs ------------------------------------------------------------------------------------------------------

  function Next(host: Endian, retries: nat, m: Memory, e: Event): (Memory, seq<T.State>) {
    if Enabled(m, e) then Step(host, retries, m, e) else (m, [])
  }

  function Run(host: Endian, retries: nat, es: seq<Event>): Memory {
    if |es| == 0 then Initial() else Next(host, retries, Run(host, retries, es[..|es| - 1]), es[|es| - 1]).0
  }

  /** Every state passed to the state callback during a run. */
  function Calls(host: Endian, retries: nat, es: seq<Event>): seq<T.State> {
    if |es| == 0 then []
    else
      var n := |es| - 1;
      Calls(host, retries, es[..n]) + Next(host, retries, Run(host, retries, es[..n]), es[n]).1
  }

  /** How many rounds in a row have timed out. */
  function Timeouts(host: Endian, retries: nat, es: seq<Event>): nat {
    if |es| == 0 then 0
    else
      var n := |es| - 1;
      var m, e := Run(host, retries, es[..n]), es[n];
      if !e.Round? || !Enabled(m, e) then Timeouts(host, retries, es[..n])
      else if Scan(host, e.taken, m.server, e.nonce, 1280).Some? then 0
      else Timeouts(host, retries, es[..n]) + 1
  }

  lemma RemainderIs(n: nat, q: nat, x: nat, r: nat)
    requires n == q * r + x && x < r
    ensures n % r == x
  {
    var d := n / r - q;
    assert d * r == x - n % r by {
      assert n == n / r * r + n % r;
      assert d * r == n / r * r - q * r;
    }
    Multiple(d, r);
  }

  lemma Multiple(d: int, r: int)
    requires r > 0
    ensures d >= 1 ==> d * r >= r
    ensures d <= -1 ==> d * r <= -r
  {
    if d >= 1 {
      assert (d - 1) * r >= 0;
    } else if d <= -1 {
      assert (-1 - d) * r >= 0;
    }
  }

  lemma NextRemainder(n: nat, r: nat)
    requires r > 0
    ensures (n + 1) % r == if n % r + 1 < r then n % r + 1 else 0
  {
    var q, x := n / r, n % r;
    assert n == q * r + x;
    if x + 1 < r {
      RemainderIs(n + 1, q, x + 1, r);
    } else {
      assert (q + 1) * r == q * r + r;
      RemainderIs(n + 1, q + 1, 0, r);
    }
  }

  /** The counter counts rounds timed out in a row, over again from zero after each `retries` of them. */
  ghost predicate Counting(retries: nat, m: Memory, timeouts: nat)
    requires retries > 0
  {
    m.count == timeouts % retries && (m.state.up ==> timeouts < retries)
  }

  lemma CountStep(host: Endian, retries: nat, m: Memory, e: Event, timeouts: nat)
    requires retries > 0 && Enabled(m, e) && Counting(retries, m, timeouts)
    ensures var after := if !e.Round? then timeouts
                         else if Scan(host, e.taken, m.server, e.nonce, 1280).Some? then 0
                         else timeouts + 1;
            Inv(retries, m) ==> Counting(retries, Step(host, retries, m, e).0, after)
  {
    hide IsGlobalUnicast, Scan, AllSubmitted, Randomized, InRandomMask;
    NextRemainder(timeouts, retries);
    RemainderIs(0, 0, 0, retries);
    if timeouts < retries {
      RemainderIs(timeouts, 0, timeouts, retries);
    }
  }

  /** In every run: without a server the tunnel is down; when it is up, its address names the
      current, global unicast server and its MTU is a valid one; flags only use the random bits;
      and the retry counter is the number of rounds timed out in a row, modulo the retries, which
      are not exhausted while the tunnel is up. */
  lemma {:induction false} RunKeeps(host: Endian, retries: nat, es: seq<Event>)
    requires retries > 0
    ensures var m := Run(host, retries, es);
            Inv(retries, m) && Counting(retries, m, Timeouts(host, retries, es))
  {
    hide IsGlobalUnicast, Scan, AllSubmitted, Randomized, Counting, Inv, Step;
    if |es| > 0 {
      var n := |es| - 1;
      RunKeeps(host, retries, es[..n]);
      var m := Run(host, retries, es[..n]);
      if Enabled(m, es[n]) {
        StepKeeps(host, retries, m, es[n]);
        CountStep(host, retries, m, es[n], Timeouts(host, retries, es[..n]));
      }
    } else {
      StartKeeps(retries);
    }
  }

  lemma StartKeeps(retries: nat)
    requires retries > 0
    ensures Inv(retries, Initial()) && Counting(retries, Initial(), 0)
  {
    RemainderIs(0, 0, 0, retries);
  }

  /** The tunnel goes down exactly at the `retries`-th round in a row that times out. */
  lemma LostExactlyAfterRetries(host: Endian, retries: nat, es: seq<Event>, e: Event)
    requires retries > 0 && Run(host, retries, es).state.up
    ensures !Run(host, retries, es + [e]).state.up <==> Timeouts(host, retries, es + [e]) == retries
  {
    hide IsGlobalUnicast, Scan, AllSubmitted, Randomized, Inv;
    var more, n := es + [e], Timeouts(host, retries, es);
    assert more[..|es|] == es && more[|es|] == e;
    RunKeeps(host, retries, es);
    RunKeeps(host, retries, more);
    RemainderIs(n, 0, n, retries);
  }

  // --- what the user is told -------------------------------------------------------------------------------

  /** The tunnel passes each state on through `teredo_state_change`. */
  function Told(env: T.Env, t: T.Tunnel, calls: seq<T.State>): (T.Tunnel, seq<T.Out>) {
    if |calls| == 0 then (t, [])
    else
      var (t', os) := Told(env, t, calls[..|calls| - 1]);
      var (t'', o) := T.StateChange(env, t', calls[|calls| - 1]);
      (t'', os + o)
  }

  /** Down only right after up, and an up right after another only with a new address or MTU. */
  ghost predicate WellOrdered(os: seq<T.Out>) {
    && (forall i :: 0 <= i < |os| ==> os[i].Up? || os[i].Down?)
    && (forall i :: 0 <= i < |os| && os[i].Down? ==> i > 0 && os[i - 1].Up?)
    && (forall i {:trigger os[i].Up?} :: 0 < i < |os| && os[i].Up? && os[i - 1].Up? ==> os[i] != os[i - 1])
  }

  /** The user was last told what the procedure believes. */
  ghost predicate InStep(m: Memory, t: T.Tunnel, os: seq<T.Out>) {
    && t.state.up == m.state.up
    && (m.state.up ==> t.state == m.state)
    && (m.state.up <==> |os| > 0 && os[|os| - 1].Up?)
    && (m.state.up ==> os[|os| - 1] == T.Up(m.state.addr, m.state.mtu))
  }

  lemma ToldMore(env: T.Env, t: T.Tunnel, calls: seq<T.State>, s: T.State)
    ensures Told(env, t, calls + [s])
            == (var (t', os) := Told(env, t, calls); var (t'', o) := T.StateChange(env, t', s); (t'', os + o))
  {
    assert (calls + [s])[..|calls|] == calls;
  }

  lemma CallbackStep(host: Endian, env: T.Env, retries: nat, m: Memory, e: Event, t: T.Tunnel, os: seq<T.Out>)
    requires Inv(retries, m) && Enabled(m, e) && WellOrdered(os) && InStep(m, t, os)
    ensures var (m', cs) := Step(host, retries, m, e);
            && |cs| <= 1
            && (|cs| == 0 ==> InStep(m', t, os))
            && (|cs| == 1 ==>
                  var (t', o) := T.StateChange(env, t, cs[0]);
                  WellOrdered(os + o) && InStep(m', t', os + o))
  {
    hide IsGlobalUnicast, Scan, AllSubmitted, Randomized, InRandomMask;
  }

  /** In every run the user's callbacks are never down before up nor down twice, and an up that
      follows an up brings a new address or MTU. */
  lemma {:induction false} CallbacksOrdered(host: Endian, env: T.Env, retries: nat, es: seq<Event>, t: T.Tunnel)
    requires retries > 0 && !t.state.up
    ensures var (t', os) := Told(env, t, Calls(host, retries, es));
            WellOrdered(os) && InStep(Run(host, retries, es), t', os)
  {
    hide Step, WellOrdered, InStep, Inv;
    if |es| > 0 {
      var n := |es| - 1;
      CallbacksOrdered(host, env, retries, es[..n], t);
      var m, e, calls := Run(host, retries, es[..n]), es[n], Calls(host, retries, es[..n]);
      if Enabled(m, e) {
        RunKeeps(host, retries, es[..n]);
        var (t', os) := Told(env, t, calls);
        CallbackStep(host, env, retries, m, e, t', os);
        var cs := Step(host, retries, m, e).1;
        if |cs| == 1 {
          assert cs == [cs[0]];
          ToldMore(env, t, calls, cs[0]);
        } else {
          assert calls + cs == calls;
        }
      } else {
        assert calls + [] == calls;
      }
    } else {
      NothingTold(t);
    }
  }

  lemma NothingTold(t: T.Tunnel)
    requires !t.state.up
    ensures WellOrdered([]) && InStep(Initial(), t, [])
  {
  }

  // --- qualification ---------------------------------------------------------------------------------------

  lemma AnswerSubmitted(host: Endian, s: Server, nonce: seq<Byte>, at: Endpoint, destIp: Word32, prior: Word32)
    requires |nonce| == 8
    ensures var p := Packet(Endpoint(s.ip, TEREDO_PORT), destIp, Some(Auth(nonce, false)), at,
                            Advert(host, LinkLocal(s), RESTRICT, s.prefix, s.ip, s.mtu));
            Submitted(Taken(p, prior))
  {
    var ck := IcmpChecksum(host, LinkLocal(s), RESTRICT, AdvertBody(s.prefix, s.ip, s.mtu, [0, 0]));
    HeaderFields(56, ICMPV6, 255, LinkLocal(s), RESTRICT, AdvertBody(s.prefix, s.ip, s.mtu, ck));
  }

  /** The MTU that advertisements with our nonce leave in the round's buffer, wherever they are from. */
  function LeftBehind(host: Endian, xs: seq<Taken>, nonce: seq<Byte>, mtu: Word16): Word16
    requires AllSubmitted(xs)
  {
    if |xs| == 0 then mtu
    else
      var r := ReadAdvert(host, xs[0].packet, false, xs[0].prior);
      var ours := xs[0].packet.auth == Some(Auth(nonce, false)) && r.Accepted?;
      LeftBehind(host, xs[1..], nonce, if ours && 0 < r.mtu <= 0xffff then r.mtu else mtu)
  }

  /** After packets that did not qualify, an acceptable advertisement ends the round. The MTU is
      its own if it has one, and otherwise what the packets before it left behind. */
  lemma {:induction false} ScanFinds(host: Endian, before: seq<Taken>, x: Taken, server: Word32, nonce: seq<Byte>,
                                     mtu: Word16)
    requires AllSubmitted(before) && Submitted(x) && Scan(host, before, server, nonce, mtu).None?
    requires x.packet.auth == Some(Auth(nonce, false)) && ReadAdvert(host, x.packet, false, x.prior).Accepted?
    requires ReadAdvert(host, x.packet, false, x.prior).addr.server == server
    ensures AllSubmitted(before + [x])
    ensures var r := ReadAdvert(host, x.packet, false, x.prior);
            Scan(host, before + [x], server, nonce, mtu)
            == Some(Offer(r.addr,
                          if 0 < r.mtu <= 0xffff then r.mtu else LeftBehind(host, before, nonce, mtu),
                          x.packet.destIp))
  {
    hide ReadAdvert;
    assert AllSubmitted(before + [x]);
    if |before| == 0 {
      assert before + [x] == [x];
    } else {
      assert (before + [x])[1..] == before[1..] + [x] && (before + [x])[0] == before[0];
      var r := ReadAdvert(host, before[0].packet, false, before[0].prior);
      var ours := before[0].packet.auth == Some(Auth(nonce, false)) && r.Accepted?;
      ScanFinds(host, before[1..], x, server, nonce, if ours && 0 < r.mtu <= 0xffff then r.mtu else mtu);
    }
  }

  /** The MTU of a round need not come from the advertisement that ends it: when that one has no
      MTU option, the MTU of any other server that answered with our nonce stays. */
  lemma ForeignMtuStays(host: Endian, otherHost: Endian, other: Server, nonce: seq<Byte>, at: Endpoint, destIp: Word32,
                        prior: Word32, x: Taken, server: Word32)
    requires |nonce| == 8 && other.ip != server
    requires other.prefix != TEREDO_PREFIX_OBSOLETE && IsValidPrefix(host, other.prefix)
    requires 1280 <= other.mtu <= 65535 && at.ip != 0
    requires Submitted(x) && MaintenanceAccepts(host, x.packet, server, nonce, x.prior)
    requires ReadAdvert(host, x.packet, false, x.prior).mtu == 0
    ensures var answer := Received(Endpoint(other.ip, TEREDO_PORT), destIp, Answer(otherHost, other, nonce, at).data);
            && answer.Some?
            && var taken := [Taken(answer.value, prior), x];
            && AllSubmitted(taken)
            && Scan(host, taken, server, nonce, 1280)
               == Some(Offer(ReadAdvert(host, x.packet, false, x.prior).addr, other.mtu, x.packet.destIp))
  {
    hide Received, ReadAdvert, Advert, IsValidPrefix, Wrap, Submitted;
    var from := Endpoint(other.ip, TEREDO_PORT);
    AnswerReceived(otherHost, other, nonce, at, from, destIp);
    AnswerSubmitted(otherHost, other, nonce, at, destIp, prior);
    var p := Received(from, destIp, Answer(otherHost, other, nonce, at).data).value;
    AdvertRead(otherHost, host, other, p, prior);
    var first := [Taken(p, prior)];
    assert first + [x] == [Taken(p, prior), x] && first[1..] == [];
    ScanFinds(host, first, x, server, nonce, 1280);
  }

  /** A client that solicits its server and hears the answer, after any packets that did not
      qualify it, is up: with the server's MTU and the address that embeds the endpoint at which
      the server saw it. */
  lemma AnswerQualifies(serverHost: Endian, host: Endian, retries: nat, s: Server, m: Memory, nonce: seq<Byte>,
                        at: Endpoint, destIp: Word32, prior: Word32, before: seq<Taken>, random: Word16)
    requires |nonce| == 8 && retries > 0 && m.server == s.ip && Inv(retries, m) && s.ip != 0
    requires s.prefix != TEREDO_PREFIX_OBSOLETE && IsValidPrefix(host, s.prefix)
    requires 1280 <= s.mtu <= 65535 && at.ip != 0
    requires AllSubmitted(before) && Scan(host, before, s.ip, nonce, 1280).None?
    ensures var answer := Received(Endpoint(s.ip, TEREDO_PORT), destIp, Answer(serverHost, s, nonce, at).data);
            && answer.Some?
            && var e := Round(nonce, before + [Taken(answer.value, prior)], random);
            && Enabled(m, e)
            && var st := Step(host, retries, m, e).0.state;
            && st.up && st.mtu == s.mtu
            && st.addr == ClientAddr(s.prefix, s.ip, st.addr.flags, at) && InRandomMask(st.addr.flags)
            && Embedded(st.addr) == at
  {
    hide Received, ReadAdvert, Advert, IsGlobalUnicast, IsValidPrefix, Randomized, InRandomMask, Scan, Wrap, Submitted;
    var from := Endpoint(s.ip, TEREDO_PORT);
    AnswerReceived(serverHost, s, nonce, at, from, destIp);
    AnswerSubmitted(serverHost, s, nonce, at, destIp, prior);
    var p := Received(from, destIp, Answer(serverHost, s, nonce, at).data).value;
    AdvertRead(serverHost, host, s, p, prior);
    ScanFinds(host, before, Taken(p, prior), s.ip, nonce, 1280);
    RandomizedInMask(random);
  }
}

/** The peer list of a tunnel over a whole run: what is proved of runs of list operations holds of
    it, because every event is a few of them. */
module ListHistory {
  import opened Bytes
  import opened Addresses
  import opened Packets
  import opened Peers
  import opened Tunnels
  import L = PeerLists

  /** The list operations of one event. */
  function StepOps(env: Env, t: Tunnel, e: Event): seq<L.Op>
    requires Legal(e)
  {
    match e
    case Tx(packet, now, _, alloc, junk) =>
      if Gate(t, packet) != Pass then []
      else LookAndChange(env, t, e, Destination(packet), true, alloc, junk)
    case Rx(from, _, time, alloc, junk) =>
      if !Reaches(t, from) then []
      else
        var k := Source(from.ip6);
        var v := Judge(env, t.client, t.state.addr.prefix, from, time, EntryOf(t.list, k));
        if v == Reject then [L.Look(k, false, alloc, junk)]
        else LookAndChange(env, t, e, k, true, alloc, junk)
    case Change(s) => if s.up then [L.Reset(env.maxPeers)] else []
    case Sweep => [L.Sweep]
    case Configure(_, _) => []
    case See(_) => []
  }

  /** An entry is looked up and, if there is one, updated in place. */
  function LookAndChange(env: Env, t: Tunnel, e: Event, k: Addr, create: bool, alloc: bool, junk: Peer): seq<L.Op>
    requires Legal(e)
  {
    var after := Step(env, t, e).0.list;
    [L.Look(k, create, alloc, junk)] + if k in after.peers then [L.Change(k, after.peers[k])] else []
  }

  function Ops(env: Env, t: Tunnel, es: seq<Event>): seq<L.Op>
    requires AllLegal(es)
  {
    if |es| == 0 then []
    else
      var n := |es| - 1;
      Ops(env, t, es[..n]) + StepOps(env, Run(env, t, es[..n]), es[n])
  }

  function Apply(l: L.List, ops: seq<L.Op>): L.List
    decreases |ops|
  {
    if |ops| == 0 then l else Apply(L.Step(l, ops[0]), ops[1..])
  }

  lemma {:induction false} RunApply(max: nat, before: seq<L.Op>, ops: seq<L.Op>)
    ensures L.Run(max, before + ops) == Apply(L.Run(max, before), ops)
    decreases |ops|
  {
    hide L.Step;
    if |ops| == 0 {
      assert before + ops == before;
    } else {
      assert (before + [ops[0]])[..|before|] == before;
      assert before + ops == (before + [ops[0]]) + ops[1..];
      RunApply(max, before + [ops[0]], ops[1..]);
    }
  }

  lemma ApplyTwo(l: L.List, a: L.Op, b: L.Op)
    ensures Apply(l, [a]) == L.Step(l, a) && Apply(l, [a, b]) == L.Step(L.Step(l, a), b)
  {
    hide L.Step;
    assert [a][1..] == [] && [a, b][1..] == [b] && [b][1..] == [];
    assert Apply(L.Step(l, a), [b]) == L.Step(L.Step(l, a), b);
  }

  /** A lookup, and an update of what it found, are two list operations. */
  lemma LookedAndChanged(l: L.List, k: Addr, alloc: bool, junk: Peer, after: L.List)
    requires var (m, o) := L.Lookup(l, k, true, alloc, junk);
             if o == L.Missing then after == m
             else k in m.peers && exists p :: after == L.Put(m, k, p)
    ensures var change := if k in after.peers then [L.Change(k, after.peers[k])] else [];
            Apply(l, [L.Look(k, true, alloc, junk)] + change) == after
  {
    hide L.Without, Apply;
    var look := L.Look(k, true, alloc, junk);
    var (m, o) := L.Lookup(l, k, true, alloc, junk);
    if o == L.Missing {
      assert [look] + [] == [look];
      ApplyTwo(l, look, L.Sweep);
    } else {
      var p :| after == L.Put(m, k, p);
      assert [look] + [L.Change(k, p)] == [look, L.Change(k, p)];
      ApplyTwo(l, look, L.Change(k, p));
    }
  }

  lemma TransmitIsOps(env: Env, t: Tunnel, e: Event)
    requires e.Tx? && Legal(e)
    ensures Step(env, t, e).0.list == Apply(t.list, StepOps(env, t, e))
  {
    hide Destination, Gate, L.Without, L.Put, TxEntry, Transmit, Apply;
    TransmitKeeps(env, t, e.packet, e.now, e.time, e.alloc, e.junk);
    if Gate(t, e.packet) == Pass {
      LookedAndChanged(t.list, Destination(e.packet), e.alloc, e.junk, Step(env, t, e).0.list);
    } else {
      ApplyNone(t.list);
    }
  }

  lemma ApplyNone(l: L.List)
    ensures Apply(l, []) == l
  {
  }

  /** Reception that reaches the list changes it as `Process` does; any other leaves it alone. */
  lemma ReceiveKeeps(env: Env, t: Tunnel, e: Event)
    requires e.Rx?
    ensures if Reaches(t, e.from)
            then Step(env, t, e).0 == Process(env, t, e.from, e.now, e.time, e.alloc, e.junk).0
            else Step(env, t, e).0 == t
  {
    hide Process, Admitted, ForMaintenance, ReplyBubble;
  }

  lemma ReceiveIsOps(env: Env, t: Tunnel, e: Event)
    requires e.Rx?
    ensures Step(env, t, e).0.list == Apply(t.list, StepOps(env, t, e))
  {
    ReceiveKeeps(env, t, e);
    if Reaches(t, e.from) {
      hide Receive, Source, Judge, L.Without, L.Put, Suspected, Confirmed, Drain, Proper, SendPing, Apply, Reaches;
      var k := Source(e.from.ip6);
      var v := Judge(env, t.client, t.state.addr.prefix, e.from, e.time, EntryOf(t.list, k));
      if v == Reject {
        ApplyTwo(t.list, L.Look(k, false, e.alloc, e.junk), L.Sweep);
      } else {
        LookedAndChanged(t.list, k, e.alloc, e.junk, Step(env, t, e).0.list);
      }
    } else {
      ApplyNone(t.list);
    }
  }

  /** What an event does to the list is what its operations do. */
  lemma StepIsOps(env: Env, t: Tunnel, e: Event)
    requires Legal(e)
    ensures Step(env, t, e).0.list == Apply(t.list, StepOps(env, t, e))
  {
    match e {
      case Tx(_, _, _, _, _) => TransmitIsOps(env, t, e);
      case Rx(_, _, _, _, _) => ReceiveIsOps(env, t, e);
      case Change(_) => ApplyTwo(t.list, L.Reset(env.maxPeers), L.Sweep);
      case Sweep => ApplyTwo(t.list, L.Sweep, L.Sweep);
      case Configure(_, _) =>
      case See(_) =>
    }
  }

  lemma {:induction false} RunIsOps(env: Env, t: Tunnel, es: seq<Event>, max: nat)
    requires AllLegal(es) && t.list == L.Empty(max)
    ensures Run(env, t, es).list == L.Run(max, Ops(env, t, es))
  {
    hide Step, StepOps, Apply;
    if |es| > 0 {
      var n := |es| - 1;
      var t' := Run(env, t, es[..n]);
      RunIsOps(env, t, es[..n], max);
      StepIsOps(env, t', es[n]);
      RunApply(max, Ops(env, t, es[..n]), StepOps(env, t', es[n]));
    }
  }

  /** Resets keep the capacity that the tunnel was made with. */
  lemma {:induction false} CapacityStays(env: Env, t: Tunnel, es: seq<Event>)
    requires AllLegal(es)
    ensures forall op :: op in Ops(env, t, es) && op.Reset? ==> op.max == env.maxPeers
  {
    hide Step, Gate, Judge, Reaches, Destination, Source;
    if |es| > 0 {
      CapacityStays(env, t, es[..|es| - 1]);
    }
  }

  lemma {:induction false} CapacityIs(max: nat, ops: seq<L.Op>)
    requires forall op :: op in ops && op.Reset? ==> op.max == max
    ensures L.Capacity(max, ops) == max
  {
    if |ops| > 0 {
      assert ops[|ops| - 1] in ops;
      assert forall op :: op in ops[..|ops| - 1] ==> op in ops;
      CapacityIs(max, ops[..|ops| - 1]);
    }
  }

  /** In every run of a tunnel, whatever is transmitted, received, collected and changed: each peer
      is listed once, there are as many places left and entries as the tunnel was made for, the
      entries are in strict most-recently-used order, and a peer is listed exactly while at most one
      collection followed its last use. */
  lemma ListOfRun(env: Env, t: Tunnel, es: seq<Event>, k: Addr)
    requires AllLegal(es) && t.list == L.Empty(env.maxPeers)
    ensures var l, ops := Run(env, t, es).list, Ops(env, t, es);
            && L.ListInv(l, env.maxPeers)
            && L.MostRecentFirst(env.maxPeers, ops, l.recent + l.aged)
            && (k in l.peers <==>
                  L.Sweeps(env.maxPeers, ops, k) == Some(0) || L.Sweeps(env.maxPeers, ops, k) == Some(1))
            && (k in l.peers && k !in L.Collect(l).peers <==> L.Sweeps(env.maxPeers, ops, k) == Some(1))
  {
    hide Run, Ops, L.ListInv, L.MostRecentFirst, L.Sweeps, L.Run, L.Collect;
    var ops := Ops(env, t, es);
    RunIsOps(env, t, es, env.maxPeers);
    CapacityStays(env, t, es);
    CapacityIs(env.maxPeers, ops);
    L.Capacities(env.maxPeers, ops);
    L.LeastRecentlyUsed(env.maxPeers, ops, k);
  }
}

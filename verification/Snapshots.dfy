/** Calls copy the state of the tunnel under its lock and go on without it, so that they may work
    with a state that a change has already replaced. */
module Snapshots {
  import opened Addresses
  import opened Peers
  import opened Tunnels
  import opened TrustSafety
  import opened EntryHistory
  import UT = UserTraffic

  /** An event, and the state that it works with if it is a transmission or a reception. */
  datatype Call = Call(seen: State, event: Event)

  predicate Copies(e: Event) { e.Tx? || e.Rx? }

  ghost predicate AllCallsLegal(cs: seq<Call>) {
    forall i :: 0 <= i < |cs| ==> Legal(cs[i].event)
  }

  /** The call decides by its copy; what it changes is the tunnel as it is. */
  function CallStep(env: Env, t: Tunnel, c: Call): (Tunnel, seq<Out>)
    requires Legal(c.event)
  {
    if Copies(c.event) then
      var (t', os) := Step(env, t.(state := c.seen), c.event);
      (t'.(state := t.state), os)
    else Step(env, t, c.event)
  }

  function CallRun(env: Env, t: Tunnel, cs: seq<Call>): Tunnel
    requires forall i :: 0 <= i < |cs| ==> Legal(cs[i].event)
  {
    if |cs| == 0 then t else CallStep(env, CallRun(env, t, cs[..|cs| - 1]), cs[|cs| - 1]).0
  }

  /** The same as events, with the copies taken and given up. */
  function Expanded(t: Tunnel, c: Call): seq<Event> {
    if Copies(c.event) then [See(c.seen), c.event, See(t.state)] else [c.event]
  }

  function Events(env: Env, t: Tunnel, cs: seq<Call>): seq<Event>
    requires forall i :: 0 <= i < |cs| ==> Legal(cs[i].event)
  {
    if |cs| == 0 then []
    else
      var n := |cs| - 1;
      Events(env, t, cs[..n]) + Expanded(CallRun(env, t, cs[..n]), cs[n])
  }

  lemma RunMore(env: Env, t: Tunnel, es: seq<Event>, e: Event)
    requires AllLegal(es) && Legal(e)
    ensures AllLegal(es + [e]) && Run(env, t, es + [e]) == Step(env, Run(env, t, es), e).0
    ensures LastOut(env, t, es + [e]) == Step(env, Run(env, t, es), e).1
  {
    hide Step;
    assert (es + [e])[..|es|] == es;
  }

  /** The event of a call, after everything before it and its own copy. */
  function Until(env: Env, t: Tunnel, cs: seq<Call>): seq<Event>
    requires |cs| > 0 && forall i :: 0 <= i < |cs| ==> Legal(cs[i].event)
  {
    var n := |cs| - 1;
    Events(env, t, cs[..n]) + (if Copies(cs[n].event) then [See(cs[n].seen)] else []) + [cs[n].event]
  }

  lemma CallExpanded(env: Env, t: Tunnel, es: seq<Event>, c: Call)
    requires AllLegal(es) && Legal(c.event)
    ensures var t' := Run(env, t, es);
            && AllLegal(es + Expanded(t', c)) && Run(env, t, es + Expanded(t', c)) == CallStep(env, t', c).0
            && var until := es + (if Copies(c.event) then [See(c.seen)] else []) + [c.event];
               AllLegal(until) && LastOut(env, t, until) == CallStep(env, t', c).1
  {
    var t' := Run(env, t, es);
    if Copies(c.event) {
      hide Transmit, Receive, LastOut, Run;
      var see, back := See(c.seen), See(t'.state);
      RunMore(env, t, es, see);
      RunMore(env, t, es + [see], c.event);
      RunMore(env, t, es + [see] + [c.event], back);
      assert es + [see, c.event, back] == es + [see] + [c.event] + [back];
    } else {
      RunMore(env, t, es, c.event);
      assert es + [] + [c.event] == es + [c.event];
    }
  }

  /** A run of calls with stale copies is a run of events: all that is proved of every run of
      events holds of it. */
  lemma {:induction false} CallsAreEvents(env: Env, t: Tunnel, cs: seq<Call>)
    requires AllCallsLegal(cs)
    ensures AllLegal(Events(env, t, cs)) && Run(env, t, Events(env, t, cs)) == CallRun(env, t, cs)
    ensures |cs| > 0 ==>
              && AllLegal(Until(env, t, cs))
              && LastOut(env, t, Until(env, t, cs)) == CallStep(env, CallRun(env, t, cs[..|cs| - 1]), cs[|cs| - 1]).1
  {
    hide CallStep, Run, Expanded, LastOut, Copies;
    if |cs| > 0 {
      var n := |cs| - 1;
      CallsAreEvents(env, t, cs[..n]);
      CallExpanded(env, t, Events(env, t, cs[..n]), cs[n]);
    } else {
      assert Run(env, t, []) == t by { NoEvents(env, t); }
    }
  }

  lemma NoEvents(env: Env, t: Tunnel)
    ensures Run(env, t, []) == t
  {
  }

  /** Trust safety with stale copies: whatever states the calls work with, a trusted entry is mapped
      to the source of an earlier packet that vouched for it in the state its call worked with, and
      user packets only go to, and come from, such endpoints. */
  lemma CallsTrustSafe(env: Env, t: Tunnel, cs: seq<Call>)
    requires AllCallsLegal(cs) && t.list.peers == map[]
    ensures AllLegal(Events(env, t, cs))
    ensures Inv(env, History(env, t, Events(env, t, cs)), CallRun(env, t, cs).list.peers)
    ensures |cs| > 0 ==>
              && AllLegal(Until(env, t, cs))
              && OutsOk(env, History(env, t, Until(env, t, cs)),
                        CallStep(env, CallRun(env, t, cs[..|cs| - 1]), cs[|cs| - 1]).1)
  {
    hide CallStep, CallRun, Run, Events, Until, History, Inv, OutsOk;
    CallsAreEvents(env, t, cs);
    TrustSafe(env, t, Events(env, t, cs));
    if |cs| > 0 {
      UntilNonEmpty(env, t, cs);
      TrustSafe(env, t, Until(env, t, cs));
    }
  }

  lemma UntilNonEmpty(env: Env, t: Tunnel, cs: seq<Call>)
    requires |cs| > 0 && AllCallsLegal(cs)
    ensures |Until(env, t, cs)| > 0
  {
  }

  /** So are the packets of every peer: none is lost, sent twice or sent without cause. */
  lemma CallsConserve(env: Env, t: Tunnel, cs: seq<Call>, k: Addr)
    requires AllCallsLegal(cs) && t.list.peers == map[]
    ensures AllLegal(Events(env, t, cs))
    ensures var es, p := Events(env, t, cs), Entry(CallRun(env, t, cs), k);
            var a, log := UT.Books(env, t, es, k), UT.Log(env, t, es, k);
            && a.taken == multiset(p.queue) + multiset(UT.FromQueue(log)) + a.freed
            && UT.Trace(env, t, es, k) == UT.Emissions(log)
            && QueueInv(p) && CountersInv(p)
  {
    hide CallRun, Run, Events, UT.Books, UT.Log, UT.Trace, UT.FromQueue, UT.Emissions, QueueInv, CountersInv,
         UT.Waiting;
    CallsAreEvents(env, t, cs);
    UT.Conservation(env, t, Events(env, t, cs), k);
  }
}

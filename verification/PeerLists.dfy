/** The peer list as a value: two generations of keys, most recently used first, and their peers. */
module PeerLists {
  import opened Bytes
  import opened Addresses
  import opened Peers

  datatype List = List(recent: seq<Addr>, aged: seq<Addr>, peers: map<Addr, Peer>, left: nat)

  /** How a lookup ends. */
  datatype Outcome = Missing | Found | Created

  function Empty(max: nat): List {
    List([], [], map[], max)
  }

  /** `s` with every occurrence of `k` taken out. */
  function Without(s: seq<Addr>, k: Addr): seq<Addr> {
    if |s| == 0 then []
    else if s[0] == k then Without(s[1..], k)
    else [s[0]] + Without(s[1..], k)
  }

  /** A new entry has an empty queue; its other fields are whatever the memory held. */
  function Fresh(junk: Peer): (p: Peer)
    ensures QueueInv(p)
  {
    junk.(queue := [], queueLeft := MAX_QUEUE_BYTES)
  }

  /** `teredo_list_lookup`; `alloc` tells whether an allocation would succeed. */
  function Lookup(l: List, k: Addr, create: bool, alloc: bool, junk: Peer): (List, Outcome) {
    if k in l.peers then
      (l.(recent := [k] + Without(l.recent, k), aged := Without(l.aged, k)), Found)
    else if !create || l.left == 0 || !alloc then
      (l, Missing)
    else
      (List([k] + l.recent, l.aged, l.peers[k := Fresh(junk)], l.left - 1), Created)
  }

  function Put(l: List, k: Addr, p: Peer): List {
    l.(peers := l.peers[k := p])
  }

  /** The collector's turn: the old generation goes, the recent one becomes old. */
  function Collect(l: List): List {
    List([], l.recent, map k | k in l.peers && k !in l.aged :: l.peers[k], l.left + |l.aged|)
  }

  predicate NoDup(s: seq<Addr>) {
    forall i, j :: 0 <= i < j < |s| ==> s[i] != s[j]
  }

  /** Keys are listed once, exactly the listed keys have peers, and the capacity is accounted for. */
  ghost predicate ListInv(l: List, max: nat) {
    && NoDup(l.recent + l.aged)
    && (forall k :: k in l.peers <==> k in l.recent || k in l.aged)
    && l.left + |l.recent| + |l.aged| == max
  }

  lemma {:induction false} WithoutHas(s: seq<Addr>, k: Addr)
    ensures forall x :: x in Without(s, k) <==> x in s && x != k
    ensures k !in s ==> Without(s, k) == s
    ensures NoDup(s) ==> NoDup(Without(s, k)) && |Without(s, k)| == |s| - if k in s then 1 else 0
  {
    if |s| > 0 {
      WithoutHas(s[1..], k);
      assert s == [s[0]] + s[1..];
      if NoDup(s) {
        assert s[0] !in s[1..];
      }
    }
  }

  /** Removal at the position where the key is. */
  lemma {:induction false} WithoutAt(s: seq<Addr>, i: nat)
    requires NoDup(s) && i < |s|
    ensures Without(s, s[i]) == s[..i] + s[i + 1..]
  {
    if i == 0 {
      WithoutHas(s[1..], s[0]);
    } else {
      WithoutAt(s[1..], i - 1);
      assert s[..i] + s[i + 1..] == [s[0]] + (s[1..][..i - 1] + s[1..][i..]);
    }
  }

  lemma NoDupParts(a: seq<Addr>, b: seq<Addr>)
    ensures NoDup(a + b) <==> NoDup(a) && NoDup(b) && (forall x :: x in a ==> x !in b)
  {
    var s := a + b;
    if NoDup(s) {
      assert forall i :: 0 <= i < |a| ==> s[i] == a[i];
      assert forall i :: 0 <= i < |b| ==> s[|a| + i] == b[i];
    }
    if NoDup(a) && NoDup(b) && (forall x :: x in a ==> x !in b) {
      forall i, j | 0 <= i < j < |s|
        ensures s[i] != s[j]
      {
        if i < |a| {
          assert s[i] in a;
          if j >= |a| { assert s[j] in b; }
        }
      }
    }
  }

  lemma LookupKeeps(l: List, max: nat, k: Addr, create: bool, alloc: bool, junk: Peer)
    requires ListInv(l, max)
    ensures var (l', o) := Lookup(l, k, create, alloc, junk);
            && ListInv(l', max)
            && (o == Found <==> k in l.peers)
            && (o != Created ==> l'.peers == l.peers)
            && (o == Created ==> l'.peers == l.peers[k := Fresh(junk)] && l.left > 0)
            && (o != Missing ==> |l'.recent| > 0 && l'.recent[0] == k)
            && (o == Missing ==> l' == l)
  {
    NoDupParts(l.recent, l.aged);
    WithoutHas(l.recent, k);
    WithoutHas(l.aged, k);
    var l' := Lookup(l, k, create, alloc, junk).0;
    NoDupParts(l'.recent, l'.aged);
    if k in l.peers {
      NoDupParts([k], Without(l.recent, k));
    } else {
      NoDupParts([k], l.recent);
    }
  }

  lemma CollectKeeps(l: List, max: nat)
    requires ListInv(l, max)
    ensures ListInv(Collect(l), max)
    ensures forall k :: k in Collect(l).peers <==> k in l.recent
    ensures forall k :: k in l.recent ==> Collect(l).peers[k] == l.peers[k]
  {
    NoDupParts(l.recent, l.aged);
    assert [] + l.recent == l.recent;
  }

  // --- runs ------------------------------------------------------------------------------------------

  datatype Op =
    | Look(k: Addr, create: bool, alloc: bool, junk: Peer)
    | Sweep
    | Reset(max: nat)
    | Change(k: Addr, p: Peer)

  function Step(l: List, op: Op): List {
    match op
    case Look(k, create, alloc, junk) => Lookup(l, k, create, alloc, junk).0
    case Sweep => Collect(l)
    case Reset(max) => Empty(max)
    case Change(k, p) => if k in l.peers then Put(l, k, p) else l
  }

  function Run(max: nat, ops: seq<Op>): List {
    if |ops| == 0 then Empty(max) else Step(Run(max, ops[..|ops| - 1]), ops[|ops| - 1])
  }

  /** The maximum set by the last reset. */
  function Capacity(max: nat, ops: seq<Op>): nat {
    if |ops| == 0 then max
    else if ops[|ops| - 1].Reset? then ops[|ops| - 1].max
    else Capacity(max, ops[..|ops| - 1])
  }

  /** The operation looks `k` up successfully. */
  predicate Hits(l: List, op: Op, k: Addr) {
    op.Look? && op.k == k && Lookup(l, k, op.create, op.alloc, op.junk).1 != Missing
  }

  ghost predicate NoHit(l: List, op: Op) {
    forall k :: !Hits(l, op, k)
  }

  /** When `k` was last looked up successfully, -1 if never. */
  function LastHit(max: nat, ops: seq<Op>, k: Addr): int {
    if |ops| == 0 then -1
    else
      var n := |ops| - 1;
      if Hits(Run(max, ops[..n]), ops[n], k) then n else LastHit(max, ops[..n], k)
  }

  /** How many collections since the last successful lookup; none if there was no such lookup,
      or if the list was reset since. */
  function Sweeps(max: nat, ops: seq<Op>, k: Addr): Option<nat> {
    if |ops| == 0 then None
    else
      var n := |ops| - 1;
      var before := Sweeps(max, ops[..n], k);
      if Hits(Run(max, ops[..n]), ops[n], k) then Some(0)
      else if ops[n].Reset? then None
      else if ops[n].Sweep? && before.Some? then Some(before.value + 1)
      else before
  }

  ghost predicate MostRecentFirst(max: nat, ops: seq<Op>, s: seq<Addr>) {
    forall i, j :: 0 <= i < j < |s| ==> LastHit(max, ops, s[i]) > LastHit(max, ops, s[j])
  }

  lemma {:induction false} Capacities(max: nat, ops: seq<Op>)
    ensures ListInv(Run(max, ops), Capacity(max, ops))
  {
    if |ops| > 0 {
      var n := |ops| - 1;
      Capacities(max, ops[..n]);
      var l, c := Run(max, ops[..n]), Capacity(max, ops[..n]);
      match ops[n] {
        case Look(k, create, alloc, junk) => LookupKeeps(l, c, k, create, alloc, junk);
        case Sweep => CollectKeeps(l, c);
        case Reset(_) =>
        case Change(_, _) =>
      }
    }
  }

  lemma PrependOrder(max: nat, ops: seq<Op>, x: Addr, s: seq<Addr>)
    requires MostRecentFirst(max, ops, s)
    requires forall i :: 0 <= i < |s| ==> LastHit(max, ops, x) > LastHit(max, ops, s[i])
    ensures MostRecentFirst(max, ops, [x] + s)
  {
    hide LastHit;
    var r := [x] + s;
    assert forall i :: 0 < i < |r| ==> r[i] == s[i - 1];
  }

  lemma TailOrder(max: nat, ops: seq<Op>, s: seq<Addr>)
    requires |s| > 0 && MostRecentFirst(max, ops, s)
    ensures MostRecentFirst(max, ops, s[1..])
    ensures forall y :: y in s[1..] ==> LastHit(max, ops, s[0]) > LastHit(max, ops, y)
  {
    hide LastHit;
    assert forall i :: 0 <= i < |s[1..]| ==> s[1..][i] == s[i + 1];
  }

  lemma {:induction false} WithoutOrder(max: nat, ops: seq<Op>, s: seq<Addr>, k: Addr)
    requires MostRecentFirst(max, ops, s)
    ensures MostRecentFirst(max, ops, Without(s, k))
  {
    hide LastHit, MostRecentFirst;
    if |s| > 0 {
      TailOrder(max, ops, s);
      WithoutOrder(max, ops, s[1..], k);
      WithoutHas(s[1..], k);
      if s[0] != k {
        PrependOrder(max, ops, s[0], Without(s[1..], k));
      }
    }
  }

  lemma {:induction false} HitsArePast(max: nat, ops: seq<Op>, k: Addr)
    ensures -1 <= LastHit(max, ops, k) < |ops|
  {
    if |ops| > 0 {
      HitsArePast(max, ops[..|ops| - 1], k);
    }
  }

  lemma {:induction false} WithoutConcat(a: seq<Addr>, b: seq<Addr>, k: Addr)
    ensures Without(a + b, k) == Without(a, k) + Without(b, k)
  {
    if |a| == 0 {
      assert a + b == b;
    } else {
      assert (a + b)[1..] == a[1..] + b;
      WithoutConcat(a[1..], b, k);
    }
  }

  /** A lookup of `k` leaves the order of the other keys alone and puts `k` in front. */
  lemma LookOrder(max: nat, ops: seq<Op>, s: seq<Addr>, k: Addr)
    requires |ops| > 0 && Hits(Run(max, ops[..|ops| - 1]), ops[|ops| - 1], k)
    requires MostRecentFirst(max, ops[..|ops| - 1], s)
    ensures MostRecentFirst(max, ops, [k] + Without(s, k))
  {
    var n := |ops| - 1;
    WithoutOrder(max, ops[..n], s, k);
    WithoutHas(s, k);
    var r := Without(s, k);
    forall i, j | 0 <= i < j < |[k] + r|
      ensures LastHit(max, ops, ([k] + r)[i]) > LastHit(max, ops, ([k] + r)[j])
    {
      assert r[j - 1] in r;
      HitsArePast(max, ops[..n], r[j - 1]);
      if i > 0 {
        assert r[i - 1] in r;
      }
    }
  }

  /** Without a successful lookup the order stays as it was. */
  lemma SameOrder(max: nat, ops: seq<Op>, s: seq<Addr>)
    requires |ops| > 0
    requires NoHit(Run(max, ops[..|ops| - 1]), ops[|ops| - 1])
    requires MostRecentFirst(max, ops[..|ops| - 1], s)
    ensures MostRecentFirst(max, ops, s)
  {
  }

  ghost predicate Generations(max: nat, ops: seq<Op>) {
    var l := Run(max, ops);
    && MostRecentFirst(max, ops, l.recent + l.aged)
    && (forall k :: k in l.recent <==> Sweeps(max, ops, k) == Some(0))
    && (forall k :: k in l.aged <==> Sweeps(max, ops, k) == Some(1))
  }

  /** Found or created, the key moves to the front of the recent generation. */
  lemma LookupMoves(l: List, max: nat, k: Addr, create: bool, alloc: bool, junk: Peer)
    requires ListInv(l, max) && Lookup(l, k, create, alloc, junk).1 != Missing
    ensures var l' := Lookup(l, k, create, alloc, junk).0;
            && l'.recent == [k] + Without(l.recent, k) && l'.aged == Without(l.aged, k)
            && l'.recent + l'.aged == [k] + Without(l.recent + l.aged, k)
  {
    if k !in l.peers {
      assert k !in l.recent && k !in l.aged;
      WithoutHas(l.recent, k);
      WithoutHas(l.aged, k);
    }
    MoveToFront(l.recent, l.aged, k);
  }

  lemma MoveToFront(a: seq<Addr>, b: seq<Addr>, k: Addr)
    ensures ([k] + Without(a, k)) + Without(b, k) == [k] + Without(a + b, k)
  {
    WithoutConcat(a, b, k);
    assert ([k] + Without(a, k)) + Without(b, k) == [k] + (Without(a, k) + Without(b, k));
  }

  lemma LookGenerations(max: nat, ops: seq<Op>)
    requires |ops| > 0 && ops[|ops| - 1].Look? && Generations(max, ops[..|ops| - 1])
    ensures Generations(max, ops)
  {
    hide Without, MostRecentFirst, ListInv, NoDup;
    var n := |ops| - 1;
    var l, op := Run(max, ops[..n]), ops[n];
    if Hits(l, op, op.k) {
      Capacities(max, ops[..n]);
      LookupMoves(l, Capacity(max, ops[..n]), op.k, op.create, op.alloc, op.junk);
      LookOrder(max, ops, l.recent + l.aged, op.k);
      WithoutHas(l.recent, op.k);
      WithoutHas(l.aged, op.k);
      forall k
        ensures Sweeps(max, ops, k) == if k == op.k then Some(0) else Sweeps(max, ops[..n], k)
      {
      }
    } else {
      SameOrder(max, ops, l.recent + l.aged);
    }
  }

  lemma FrontOrder(max: nat, ops: seq<Op>, a: seq<Addr>, b: seq<Addr>)
    requires MostRecentFirst(max, ops, a + b)
    ensures MostRecentFirst(max, ops, a)
  {
    hide LastHit;
    assert forall i :: 0 <= i < |a| ==> (a + b)[i] == a[i];
  }

  lemma SweepGenerations(max: nat, ops: seq<Op>)
    requires |ops| > 0 && ops[|ops| - 1].Sweep? && Generations(max, ops[..|ops| - 1])
    ensures Generations(max, ops)
  {
    hide Lookup, Without, LastHit, MostRecentFirst;
    var l := Run(max, ops[..|ops| - 1]);
    FrontOrder(max, ops[..|ops| - 1], l.recent, l.aged);
    SameOrder(max, ops, l.recent);
    assert [] + l.recent == l.recent;
  }

  lemma {:induction false} RunGenerations(max: nat, ops: seq<Op>)
    ensures Generations(max, ops)
  {
    hide Lookup, Without, Collect, LastHit;
    if |ops| > 0 {
      var n := |ops| - 1;
      RunGenerations(max, ops[..n]);
      var l := Run(max, ops[..n]);
      match ops[n] {
        case Look(_, _, _, _) => LookGenerations(max, ops);
        case Sweep => SweepGenerations(max, ops);
        case Reset(_) =>
        case Change(_, _) => SameOrder(max, ops, l.recent + l.aged);
      }
    }
  }

  /** In every run the entries are kept in strict most-recently-looked-up order; an entry is
      present exactly while at most one collection followed its last lookup, so that a collection
      removes exactly the entries not looked up since the previous one. */
  lemma LeastRecentlyUsed(max: nat, ops: seq<Op>, k: Addr)
    ensures var l := Run(max, ops);
            && MostRecentFirst(max, ops, l.recent + l.aged)
            && (k in l.peers <==> Sweeps(max, ops, k) == Some(0) || Sweeps(max, ops, k) == Some(1))
            && (k in l.peers && k !in Collect(l).peers <==> Sweeps(max, ops, k) == Some(1))
  {
    RunGenerations(max, ops);
    Capacities(max, ops);
    CollectKeeps(Run(max, ops), Capacity(max, ops));
  }
}

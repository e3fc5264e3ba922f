/** The intrusive two-generation list with its index, as linked nodes updated in place. */
module LinkedPeerList {
  import opened Addresses
  import opened Peers
  import L = PeerLists

  /** The pointer variable a node's `pprev` points to. */
  datatype Slot = RecentHead | OldHead | NextOf(node: Node)

  /** `teredo_listitem` */
  class Node {
    const key: Addr
    var pprev: Slot
    var next: Node?
    var peer: Peer

    constructor (key: Addr, peer: Peer)
      ensures this.key == key && this.peer == peer
    {
      this.key, this.peer := key, peer;
      pprev := RecentHead;
      next := null;
    }
  }

  function NextIn(ns: seq<Node>, i: nat): Node?
    requires i < |ns|
  {
    if i + 1 < |ns| then ns[i + 1] else null
  }

  function SlotIn(head: Slot, ns: seq<Node>, i: nat): Slot
    requires i < |ns|
  {
    if i == 0 then head else NextOf(ns[i - 1])
  }

  /** `ns` is the acyclic list that starts in the pointer variable `head`, and the `pprev` of each
      of its nodes points to the pointer that points to it. */
  ghost predicate Threaded(first: Node?, head: Slot, ns: seq<Node>)
    reads ns`next, ns`pprev
  {
    && first == (if |ns| == 0 then null else ns[0])
    && (forall i {:trigger ns[i].next} :: 0 <= i < |ns| ==> ns[i].next == NextIn(ns, i))
    && (forall i {:trigger ns[i].pprev} :: 0 <= i < |ns| ==> ns[i].pprev == SlotIn(head, ns, i))
  }

  ghost predicate Distinct(ns: seq<Node>) {
    forall i, j :: 0 <= i < j < |ns| ==> ns[i] != ns[j]
  }

  ghost predicate Labelled(ns: seq<Node>, ks: seq<Addr>)
  {
    |ks| == |ns| && forall i :: 0 <= i < |ns| ==> ns[i].key == ks[i]
  }

  ghost function SetOf(ns: seq<Node>): set<Node> {
    set n | n in ns
  }

  /** The index maps exactly the keys of the nodes, each to its node. */
  ghost predicate IndexOf(index: map<Addr, Node?>, ns: set<Node>) {
    && (forall n :: n in ns ==> n.key in index && index[n.key] == n)
    && (forall k :: k in index ==> index[k] != null && index[k] in ns && (index[k] as Node).key == k)
  }

  ghost function PeersIn(index: map<Addr, Node?>, ns: set<Node>): map<Addr, Peer>
    requires IndexOf(index, ns)
    reads ns`peer
  {
    map k | k in index :: (index[k] as Node).peer
  }

  lemma IndexMore(index: map<Addr, Node?>, ns: set<Node>, n: Node)
    requires IndexOf(index - {n.key}, ns) && n !in ns
    ensures IndexOf(index[n.key := n], ns + {n})
    ensures PeersIn(index[n.key := n], ns + {n}) == PeersIn(index - {n.key}, ns)[n.key := n.peer]
  {
    var more := index[n.key := n];
    forall k | k in more
      ensures more[k] != null && more[k] in ns + {n} && (more[k] as Node).key == k
    {
      if k != n.key { assert k in index - {n.key}; }
    }
  }

  ghost function KeySet(ks: seq<Addr>): set<Addr> {
    set k | k in ks
  }

  function Cut<T>(s: seq<T>, i: nat): seq<T>
    requires i < |s|
  {
    s[..i] + s[i + 1..]
  }

  class PeerList {
    var recent: Node?
    var aged: Node?
    var left: nat
    /** Judy array or search tree; a slot just inserted holds null. */
    var index: map<Addr, Node?>
    /** Whether the list mutex is held. */
    var locked: bool
    ghost var recents: seq<Node>
    ghost var ageds: seq<Node>
    ghost var recentKeys: seq<Addr>
    ghost var agedKeys: seq<Addr>
    /** The maximum given to the constructor or to the last reset. */
    ghost var capacity: nat

    ghost function Nodes(): set<Node>
      reads `recents, `ageds
    {
      SetOf(recents) + SetOf(ageds)
    }

    /** Both lists are well threaded and disjoint. */
    ghost predicate Threads()
      reads `recent, `aged, `recents, `ageds, recents`next, recents`pprev, ageds`next, ageds`pprev
    {
      && Threaded(recent, RecentHead, recents)
      && Threaded(aged, OldHead, ageds)
      && Distinct(recents) && Distinct(ageds)
      && (forall n :: n in recents ==> n !in ageds)
    }

    /** Everything but the index. */
    ghost predicate Structure()
      reads `recent, `aged, `recents, `ageds, `recentKeys, `agedKeys
      reads recents`next, recents`pprev, ageds`next, ageds`pprev
    {
      Threads() && Labelled(recents, recentKeys) && Labelled(ageds, agedKeys)
    }

    /** Places left and entries make the capacity. */
    ghost predicate Accounted()
      reads `left, `recentKeys, `agedKeys, `capacity
    {
      left + |recentKeys| + |agedKeys| == capacity
    }

    ghost predicate Valid()
      reads `recent, `aged, `recents, `ageds, `index, `recentKeys, `agedKeys, `left, `capacity
      reads recents`next, recents`pprev, ageds`next, ageds`pprev
    {
      Structure() && IndexOf(index, Nodes()) && Accounted()
    }

    /** The list as a value. */
    ghost function View(): L.List
      requires Valid()
      reads `recent, `aged, `recents, `ageds, `index, `left, `recentKeys, `agedKeys, `capacity
      reads recents`next, recents`pprev, ageds`next, ageds`pprev, Nodes()`peer
    {
      L.List(recentKeys, agedKeys, PeersIn(index, Nodes()), left)
    }

    /** What soundness and the value are made of. */
    lemma Parts()
      requires Valid()
      ensures Structure() && IndexOf(index, Nodes()) && Accounted() && SetOf(recents) <= Nodes()
      ensures View() == L.List(recentKeys, agedKeys, PeersIn(index, Nodes()), left)
    {
    }

    constructor (max: nat)
      ensures Valid() && !locked && View() == L.Empty(max) && capacity == max
      ensures Nodes() == {}
    {
      recent, aged := null, null;
      left, capacity := max, max;
      index := map[];
      locked := false;
      recents, ageds := [], [];
      recentKeys, agedKeys := [], [];
    }

    /** Takes a node out of its list: `*(n.pprev) = n.next`. It is element `i` of one of the two. */
    method Unlink(n: Node, ghost inRecent: bool, ghost i: nat)
      requires Threads()
      requires var ns := if inRecent then recents else ageds; i < |ns| && ns[i] == n
      modifies `recent, `aged, `recents, `ageds, recents`next, recents`pprev, ageds`next, ageds`pprev
      ensures Threads() && n !in recents && n !in ageds
      ensures recents == if inRecent then Cut(old(recents), i) else old(recents)
      ensures ageds == if inRecent then old(ageds) else Cut(old(ageds), i)
      ensures Nodes() == old(Nodes()) - {n}
    {
      hide NextIn, SlotIn, Cut, Distinct;
      ghost var ns, rest := if inRecent then recents else ageds, if inRecent then ageds else recents;
      ghost var head := if inRecent then RecentHead else OldHead;
      DistinctCut(ns, i, rest);
      assert forall j :: 0 <= j < |rest| ==> rest[j] !in ns;
      SlotAt(if inRecent then recent else aged, head, ns, i);
      Bypass(n, ns, i, head, if inRecent then recent else aged);
      match n.pprev {
        case RecentHead => recent := n.next;
        case OldHead => aged := n.next;
        case NextOf(_) =>
      }
      if inRecent {
        assert Threaded(recent, RecentHead, Cut(recents, i));
        recents := Cut(recents, i);
      } else {
        assert Threaded(aged, OldHead, Cut(ageds, i));
        ageds := Cut(ageds, i);
      }
    }

    /** Inserts a node at the head of the recent list. */
    method PushFront(n: Node)
      requires Threads() && n !in recents && n !in ageds
      modifies `recent, `recents, n`next, n`pprev, recents`pprev
      ensures Threads() && recents == [n] + old(recents)
      ensures Nodes() == old(Nodes()) + {n}
    {
      n.next := recent;
      if n.next != null {
        n.next.pprev := NextOf(n);
      }
      recent := n;
      n.pprev := RecentHead;
      recents := [n] + recents;
    }

    /** Moves a node to the head of the recent list, unless it is there already. */
    method MoveToFront(n: Node, ghost inRecent: bool, ghost i: nat)
      requires Threads()
      requires var ns := if inRecent then recents else ageds; i < |ns| && ns[i] == n
      modifies `recent, `aged, `recents, `ageds, recents`next, recents`pprev, ageds`next, ageds`pprev
      ensures Threads() && Nodes() == old(Nodes())
      ensures recents == [n] + if inRecent then Cut(old(recents), i) else old(recents)
      ensures ageds == if inRecent then old(ageds) else Cut(old(ageds), i)
    {
      if recent != n {
        Unlink(n, inRecent, i);
        PushFront(n);
      } else {
        assert recents[0] == n && n in recents;
        assert inRecent;
        assert i == 0;
        assert recents == [n] + Cut(recents, 0);
      }
    }

    method Touch(n: Node)
      requires Valid() && n in Nodes()
      modifies `recent, `aged, `recents, `ageds, `recentKeys, `agedKeys
      modifies recents`next, recents`pprev, ageds`next, ageds`pprev
      ensures Valid() && Nodes() == old(Nodes())
      ensures var l := old(View());
              View() == l.(recent := [n.key] + L.Without(l.recent, n.key), aged := L.Without(l.aged, n.key))
    {
      hide Threads, Labelled, IndexOf, PeersIn, Cut, L.Without;
      ghost var inRecent := n in recents;
      ghost var i := Position(n);
      Relabel(n, i);
      MoveToFront(n, inRecent, i);
    }

    ghost method Relabel(n: Node, i: nat)
      requires Valid()
      requires var ns := if n in recents then recents else ageds; i < |ns| && ns[i] == n
      modifies `recentKeys, `agedKeys
      ensures recentKeys == [n.key] + L.Without(old(recentKeys), n.key)
      ensures agedKeys == L.Without(old(agedKeys), n.key)
      ensures |recentKeys| + |agedKeys| == old(|recentKeys| + |agedKeys|)
      ensures Labelled([n] + if n in recents then Cut(recents, i) else recents, recentKeys)
      ensures Labelled(if n in recents then ageds else Cut(ageds, i), agedKeys)
    {
      TouchLabels(n, i);
      recentKeys, agedKeys := [n.key] + L.Without(recentKeys, n.key), L.Without(agedKeys, n.key);
    }

    /** The nodes and the keys are rearranged alike. */
    lemma TouchLabels(n: Node, i: nat)
      requires Valid()
      requires var ns := if n in recents then recents else ageds; i < |ns| && ns[i] == n
      ensures Labelled([n] + if n in recents then Cut(recents, i) else recents,
                       [n.key] + L.Without(recentKeys, n.key))
      ensures Labelled(if n in recents then ageds else Cut(ageds, i), L.Without(agedKeys, n.key))
      ensures 1 + |L.Without(recentKeys, n.key)| + |L.Without(agedKeys, n.key)| == |recentKeys| + |agedKeys|
    {
      TouchKeys(n, i);
      if n in recents {
        CutLabels(recents, recentKeys, i);
      } else {
        CutLabels(ageds, agedKeys, i);
      }
      PrependLabel(n, if n in recents then Cut(recents, i) else recents, L.Without(recentKeys, n.key));
    }

    /** Links a new node at the head of the recent list. */
    method Insert(n: Node)
      requires Structure() && n !in Nodes()
      modifies `recent, `recents, `recentKeys, n`next, n`pprev, recents`pprev
      ensures Structure() && Nodes() == old(Nodes()) + {n}
      ensures recentKeys == [n.key] + old(recentKeys)
    {
      PrependLabel(n, recents, recentKeys);
      PushFront(n);
      recentKeys := [n.key] + recentKeys;
    }

    /** Links a new node and puts it in the index slot inserted for it. */
    method Fill(n: Node)
      requires Structure() && IndexOf(index - {n.key}, Nodes()) && Accounted() && n !in Nodes() && left > 0
      modifies `recent, `recents, `recentKeys, `index, `left, n`next, n`pprev, recents`pprev
      ensures Valid() && Nodes() == old(Nodes()) + {n}
      ensures View() == L.List([n.key] + old(recentKeys), agedKeys,
                               old(PeersIn(index - {n.key}, Nodes()))[n.key := n.peer], old(left) - 1)
    {
      hide Structure, IndexOf, PeersIn;
      IndexMore(index, Nodes(), n);
      Insert(n);
      left := left - 1;
      index := index[n.key := n];
    }

    /** Removes the index slot inserted for `addr`. */
    method DropSlot(addr: Addr)
      requires Structure() && IndexOf(index - {addr}, Nodes()) && Accounted()
      modifies `index
      ensures Valid()
      ensures View() == L.List(recentKeys, agedKeys, old(PeersIn(index - {addr}, Nodes())), left)
    {
      hide Structure, IndexOf, PeersIn;
      index := index - {addr};
    }

    /** The index slot of `addr` has just been inserted: fills it with a new entry or removes it. */
    method Create(addr: Addr, alloc: bool, junk: Peer) returns (p: Node?)
      requires Structure() && IndexOf(index - {addr}, Nodes()) && addr in index && Accounted()
      modifies `recent, `recents, `recentKeys, `index, `left, recents`pprev
      ensures Valid() && fresh(Nodes() - old(Nodes()))
      ensures p == null <==> old(left) == 0 || !alloc
      ensures var l := L.List(old(recentKeys), agedKeys, old(PeersIn(index - {addr}, Nodes())), old(left));
              View() == if p == null then l
                        else L.List([addr] + l.recent, l.aged, l.peers[addr := L.Fresh(junk)], l.left - 1)
      ensures p != null ==> p in Nodes() && p.key == addr
    {
      hide Structure, IndexOf, PeersIn, Accounted, L.Fresh;
      p := null;
      if left > 0 && alloc {
        p := new Node(addr, L.Fresh(junk));
      }
      if p == null {
        DropSlot(addr);
        return;
      }
      Fill(p);
    }

    /** Inserts an index slot for a key that is not there, and fills it or removes it again. */
    method Add(addr: Addr, alloc: bool, junk: Peer) returns (p: Node?)
      requires Valid() && addr !in index
      modifies `recent, `recents, `recentKeys, `index, `left, recents`pprev
      ensures Valid() && fresh(Nodes() - old(Nodes()))
      ensures p == null <==> old(left) == 0 || !alloc
      ensures var l := old(View());
              View() == if p == null then l
                        else L.List([addr] + l.recent, l.aged, l.peers[addr := L.Fresh(junk)], l.left - 1)
      ensures p != null ==> p in Nodes() && p.key == addr
    {
      hide Structure, IndexOf, PeersIn, Accounted, Valid, View, L.Fresh;
      Parts();
      ghost var before := index;
      index := index[addr := null];
      assert index - {addr} == before;
      p := Create(addr, alloc, junk);
    }

    /** `teredo_list_lookup`: returns with the list locked exactly when it returns a node. */
    method Lookup(addr: Addr, create: bool, alloc: bool, junk: Peer) returns (p: Node?, created: bool)
      requires Valid() && !locked
      modifies this, recents`next, recents`pprev, ageds`next, ageds`pprev
      ensures Valid() && fresh(Nodes() - old(Nodes()))
      ensures View() == L.Lookup(old(View()), addr, create, alloc, junk).0
      ensures L.Lookup(old(View()), addr, create, alloc, junk).1
              == if p == null then L.Missing else if created then L.Created else L.Found
      ensures locked == (p != null) && capacity == old(capacity)
      ensures p != null ==> p in Nodes() && p.key == addr
    {
      hide Valid, View, L.Without, L.Fresh;
      InIndex(addr);
      created := false;
      locked := true;
      if addr in index {
        p := index[addr];
        Touch(p);
        return;
      }
      p := null;
      if create {
        p := Add(addr, alloc, junk);
        created := p != null;
      }
      if p == null {
        locked := false;
      }
    }

    /** Updates the peer of an entry in place, under the lock. */
    method SetPeer(n: Node, p: Peer)
      requires Valid() && locked && n in Nodes()
      modifies n`peer
      ensures Valid() && View() == L.Put(old(View()), n.key, p)
    {
      hide Threads, Labelled;
      n.peer := p;
    }

    /** The body of the garbage collector's loop. */
    method Collect()
      requires Valid() && !locked
      modifies this, recents`pprev
      ensures Valid() && !locked && Nodes() <= old(Nodes()) && capacity == old(capacity)
      ensures View() == L.Collect(old(View()))
    {
      hide Structure, IndexOf, PeersIn, Valid, View, SetOf, KeySet;
      Parts();
      locked := true;
      DropIndex();
      DropAged();
      Age();
      locked := false;
    }

    /** The recent list becomes the old one. */
    method AgeLinks()
      requires Threads()
      modifies `recent, `aged, `recents, `ageds, recents`pprev
      ensures Threads() && recents == [] && ageds == old(recents)
    {
      aged := recent;
      recent := null;
      if aged != null {
        aged.pprev := OldHead;
      }
      ageds, recents := recents, [];
    }

    lemma AgedView()
      requires Threads() && recents == [] && recentKeys == [] && Labelled(ageds, agedKeys)
      requires IndexOf(index, SetOf(ageds))
      requires Accounted()
      ensures Valid() && Nodes() == SetOf(ageds)
      ensures View() == L.List([], agedKeys, PeersIn(index, SetOf(ageds)), left)
    {
      hide Threads, IndexOf, PeersIn;
      assert Nodes() == SetOf(ageds);
    }

    method Age()
      requires Structure() && IndexOf(index, SetOf(recents)) && left + |recentKeys| == capacity
      modifies `recent, `aged, `recents, `ageds, `recentKeys, `agedKeys, recents`pprev
      ensures Valid() && Nodes() == old(SetOf(recents))
      ensures View() == L.List([], old(recentKeys), old(PeersIn(index, SetOf(recents))), left)
    {
      hide Threads, Labelled, IndexOf, PeersIn, Valid, View, Nodes;
      AgeLinks();
      agedKeys, recentKeys := recentKeys, [];
      AgedView();
    }

    /** Without the aged keys, the index is the index of the recent nodes. */
    lemma DropIndex()
      requires Valid()
      ensures var idx := index - KeySet(agedKeys);
              IndexOf(idx, SetOf(recents)) && PeersIn(idx, SetOf(recents)) == L.Collect(View()).peers
    {
      KeysDistinct();
      var idx := index - KeySet(agedKeys);
      forall n | n in recents
        ensures n.key in idx
      {
        assert n in Nodes();
        var i :| 0 <= i < |recents| && recents[i] == n;
        assert recentKeys[i] == n.key;
      }
      assert forall i :: 0 <= i < |ageds| ==> ageds[i].key in agedKeys;
    }

    /** Removes the aged peers from the index and gives their places back. */
    method DropAged()
      requires Structure()
      modifies `index, `left
      ensures left == old(left) + |agedKeys|
      ensures index == old(index) - KeySet(agedKeys)
      ensures Structure()
    {
      hide Distinct;
      var p := aged;
      ghost var j := 0;
      while p != null
        invariant 0 <= j <= |ageds| && p == if j < |ageds| then ageds[j] else null
        invariant left == old(left) + j
        invariant index == old(index) - KeySet(agedKeys[..j])
        decreases |ageds| - j
      {
        assert KeySet(agedKeys[..j + 1]) == KeySet(agedKeys[..j]) + {p.key};
        index := index - {p.key};
        left := left + 1;
        p := p.next;
        j := j + 1;
      }
      assert agedKeys[..j] == agedKeys;
    }

    /** `teredo_list_reset` */
    method Reset(max: nat)
      requires Valid() && !locked
      modifies this
      ensures Valid() && !locked && Nodes() == {} && View() == L.Empty(max) && capacity == max
    {
      hide Valid, View, Nodes;
      locked := true;
      index := map[];
      recent, aged := null, null;
      left, capacity := max, max;
      recents, ageds := [], [];
      recentKeys, agedKeys := [], [];
      locked := false;
      EmptyView();
    }

    lemma EmptyView()
      requires recent == null && aged == null && recents == [] && ageds == [] && recentKeys == [] && agedKeys == []
      requires index == map[] && left == capacity
      ensures Valid() && Nodes() == {} && View() == L.Empty(left)
    {
    }

    method Release()
      requires locked
      modifies `locked
      ensures !locked
    {
      locked := false;
    }

    /** The value it represents lists each key once, has a peer for exactly the listed keys and
        accounts for the capacity. */
    lemma ViewInv()
      requires Valid()
      ensures L.ListInv(View(), capacity)
    {
      KeysDistinct();
      L.NoDupParts(recentKeys, agedKeys);
      forall k | k in index
        ensures k in recentKeys || k in agedKeys
      {
        var n := index[k] as Node;
        var i := Position(n);
        assert if n in recents then recentKeys[i] == k else agedKeys[i] == k;
      }
      assert forall i :: 0 <= i < |recents| ==> recents[i] in Nodes();
      assert forall i :: 0 <= i < |ageds| ==> ageds[i] in Nodes();
    }

    lemma PeerAt(n: Node)
      requires Valid() && n in Nodes()
      ensures n.key in View().peers && View().peers[n.key] == n.peer
    {
    }

    lemma InIndex(addr: Addr)
      requires Valid()
      ensures (addr in View().peers <==> addr in index) && View().left == left
      ensures addr in index ==> index[addr] != null && index[addr] in Nodes() && (index[addr] as Node).key == addr
    {
    }

    lemma Position(n: Node) returns (i: nat)
      requires n in Nodes()
      ensures n in recents ==> i < |recents| && recents[i] == n
      ensures n !in recents ==> i < |ageds| && ageds[i] == n
    {
      if n in recents {
        i :| 0 <= i < |recents| && recents[i] == n;
      } else {
        i :| 0 <= i < |ageds| && ageds[i] == n;
      }
    }

    /** Distinct nodes have distinct keys, because the index knows only one node per key. */
    lemma KeysDistinct()
      requires Valid()
      ensures L.NoDup(recentKeys) && L.NoDup(agedKeys)
      ensures forall k :: k in recentKeys ==> k !in agedKeys
    {
      assert forall i :: 0 <= i < |recents| ==> recents[i] in Nodes() && index[recentKeys[i]] == recents[i];
      assert forall i :: 0 <= i < |ageds| ==> ageds[i] in Nodes() && index[agedKeys[i]] == ageds[i];
    }

    /** Removing a node's key from the generations is cutting it out where the node is. */
    lemma TouchKeys(n: Node, i: nat)
      requires Valid()
      requires var ns := if n in recents then recents else ageds; i < |ns| && ns[i] == n
      ensures L.Without(recentKeys, n.key) == if n in recents then Cut(recentKeys, i) else recentKeys
      ensures L.Without(agedKeys, n.key) == if n in recents then agedKeys else Cut(agedKeys, i)
    {
      KeysDistinct();
      if n in recents {
        L.WithoutAt(recentKeys, i);
        L.WithoutHas(agedKeys, n.key);
      } else {
        L.WithoutAt(agedKeys, i);
        L.WithoutHas(recentKeys, n.key);
      }
    }
  }

  lemma PrependLabel(n: Node, ns: seq<Node>, ks: seq<Addr>)
    requires Labelled(ns, ks)
    ensures Labelled([n] + ns, [n.key] + ks)
  {
  }

  lemma CutLabels(ns: seq<Node>, ks: seq<Addr>, i: nat)
    requires Labelled(ns, ks) && i < |ns|
    ensures Labelled(Cut(ns, i), Cut(ks, i))
  {
    forall j | 0 <= j < |ns| - 1
      ensures Cut(ns, i)[j].key == Cut(ks, i)[j]
    {
      CutAt(ns, i, j);
      CutAt(ks, i, j);
    }
  }

  /** The `pprev` of a node is the head pointer variable exactly for the first one. */
  lemma SlotAt(first: Node?, head: Slot, ns: seq<Node>, i: nat)
    requires Threaded(first, head, ns) && i < |ns| && !head.NextOf?
    ensures ns[i].pprev.NextOf? <==> i > 0
    ensures i == 0 ==> ns[i].pprev == head
  {
  }

  /** Redirects the pointers around element `i`, except the head pointer variable. */
  method Bypass(n: Node, ghost ns: seq<Node>, ghost i: nat, ghost head: Slot, ghost first: Node?)
    requires i < |ns| && ns[i] == n && Threaded(first, head, ns) && Distinct(ns) && !head.NextOf?
    modifies ns`next, ns`pprev
    ensures Threaded(if i == 0 then old(n.next) else first, head, Cut(ns, i))
    ensures n.next == old(n.next) && n.pprev == old(n.pprev)
  {
    if n.next != null {
      assert n.next == ns[i + 1];
      n.next.pprev := n.pprev;
    }
    if n.pprev.NextOf? {
      assert n.pprev.node == ns[i - 1];
      n.pprev.node.next := n.next;
    }
    ghost var c := Cut(ns, i);
    forall j | 0 <= j < |c|
      ensures c[j].next == NextIn(c, j)
    {
      CutAt(ns, i, j);
      if j + 1 < |c| { CutAt(ns, i, j + 1); }
    }
    forall j | 0 <= j < |c|
      ensures c[j].pprev == SlotIn(head, c, j)
    {
      CutAt(ns, i, j);
      if j > 0 { CutAt(ns, i, j - 1); }
    }
  }

  lemma CutAt<T>(s: seq<T>, i: nat, j: nat)
    requires i < |s| && j < |s| - 1
    ensures Cut(s, i)[j] == s[if j < i then j else j + 1]
  {
  }

  lemma DistinctCut(ns: seq<Node>, i: nat, others: seq<Node>)
    requires i < |ns| && Distinct(ns) && (forall n :: n in ns ==> n !in others)
    ensures Distinct(Cut(ns, i)) && ns[i] !in Cut(ns, i) && ns[i] !in others
    ensures SetOf(Cut(ns, i)) == SetOf(ns) - {ns[i]}
    ensures forall n :: n in Cut(ns, i) ==> n !in others
  {
    assert forall j :: 0 <= j < |Cut(ns, i)| ==> Cut(ns, i)[j] == ns[if j < i then j else j + 1];
    forall n | n in ns && n != ns[i]
      ensures n in Cut(ns, i)
    {
      var j :| 0 <= j < |ns| && ns[j] == n;
      assert Cut(ns, i)[if j < i then j else j - 1] == n;
    }
  }
}

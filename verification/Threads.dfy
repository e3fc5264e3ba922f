/** The threads of a client and their locks: any number of transmitting, receiving, collecting and
    configuring threads, and the maintenance thread with its one-slot mailbox. */
module Threads {
  import opened Bytes

  /** Where a worker thread is. A ticket is the number of its submission to the mailbox. */
  datatype Worker =
    | Idle
    | WantState | InState                              // state lock, shared
    | WantSet | InSet                                  // state lock, exclusive: a setter
    | WantList | InList                                // peer list lock
    | WantOuter                                        // maintenance, outer lock
    | WantInner | InInner                              // holds outer; then inner as well
    | Waiting(ticket: nat, signalled: bool)            // holds outer, waits for `processed`
    | Woken(ticket: nat)                               // holds outer, wants inner back
    | Checking(ticket: nat)                            // holds outer and inner
    | Leaving(ticket: nat)                             // holds outer

  /** Where the maintenance thread is. */
  datatype Maintainer =
    | Resume                                           // wants inner
    | Running                                          // holds inner
    | Asleep(signalled: bool)                          // waits for `received`
    | WantWrite | Writing                              // holds inner; then the state lock, exclusively
    | WantReset | Resetting                            // and wants, then holds the list lock

  /** `log` lists the tickets in the order the maintenance thread consumed them. */
  datatype System = System(ws: seq<Worker>, m: Maintainer, incoming: Option<nat>, next: nat, log: seq<nat>)

  predicate HoldsOuter(w: Worker) {
    w.WantInner? || w.InInner? || w.Waiting? || w.Woken? || w.Checking? || w.Leaving?
  }

  predicate HoldsInner(w: Worker) { w.InInner? || w.Checking? }
  predicate MaintainerInner(m: Maintainer) { !m.Resume? && !m.Asleep? }
  predicate MaintainerWrites(m: Maintainer) { m.Writing? || m.WantReset? || m.Resetting? }

  predicate OuterFree(s: System) { forall i :: 0 <= i < |s.ws| ==> !HoldsOuter(s.ws[i]) }
  predicate InnerFree(s: System) { !MaintainerInner(s.m) && forall i :: 0 <= i < |s.ws| ==> !HoldsInner(s.ws[i]) }
  predicate NoReader(s: System) { forall i :: 0 <= i < |s.ws| ==> s.ws[i] != InState }
  predicate NoSetter(s: System) { forall i :: 0 <= i < |s.ws| ==> s.ws[i] != InSet }
  predicate ListFree(s: System) { s.m != Resetting && forall i :: 0 <= i < |s.ws| ==> s.ws[i] != InList }

  // --- steps ---------------------------------------------------------------------------------------------------

  /** A step of worker `i`, or of the maintenance thread. */
  datatype Action =
    | Enter(i: nat, to: Worker)    // a call begins: state lock first, or the collector's list lock
    | Advance(i: nat, to: Worker)  // the next lock operation of worker i
    | Spurious(i: nat)             // a condition wait that returns for no reason
    | Maintain(turn: Maintainer)
    | Consume
    | Timeout                      // the timed wait of the maintenance thread ends by itself

  /** What a worker does next, and when it can. */
  predicate CanAdvance(s: System, w: Worker, to: Worker) {
    match w
    case Idle => false
    case WantState => to == InState && !MaintainerWrites(s.m) && NoSetter(s)
    case WantSet => to == InSet && !MaintainerWrites(s.m) && NoReader(s) && NoSetter(s)
    case InSet => to == Idle
    case InState => to == Idle || to == WantList || to == WantOuter
    case WantList => to == InList && ListFree(s)
    case InList => to == Idle || to == WantList
    case WantOuter => to == WantInner && OuterFree(s)
    case WantInner => to == InInner && InnerFree(s)
    case InInner => to == Waiting(s.next, false)
    case Waiting(t, signalled) => signalled && to == Woken(t)
    case Woken(t) => to == Checking(t) && InnerFree(s)
    case Checking(t) => to == if s.incoming.Some? then Waiting(t, false) else Leaving(t)
    case Leaving(t) => to == Idle
  }

  predicate CanMaintain(s: System, to: Maintainer) {
    match s.m
    case Resume => to == Running && InnerFree(s)
    case Running => to == WantWrite || (to == Asleep(false) && s.incoming.None?)
    case Asleep(signalled) => signalled && to == Resume
    case WantWrite => to == Writing && NoReader(s) && NoSetter(s)
    case Writing => to == WantReset || to == Running
    case WantReset => to == Resetting && ListFree(s)
    case Resetting => to == Writing
  }

  predicate Enabled(s: System, a: Action) {
    match a
    case Enter(i, to) => i < |s.ws| && s.ws[i] == Idle && (to == WantState || to == WantSet || to == WantList)
    case Advance(i, to) => i < |s.ws| && CanAdvance(s, s.ws[i], to)
    case Spurious(i) => i < |s.ws| && s.ws[i].Waiting?
    case Maintain(turn) => CanMaintain(s, turn)
    case Consume => s.m == Running && s.incoming.Some?
    case Timeout => s.m.Asleep?
  }

  /** `pthread_cond_signal` on a condition on which only one thread can wait. */
  function Signal(m: Maintainer): Maintainer {
    if m.Asleep? then Asleep(true) else m
  }

  function SignalWorkers(ws: seq<Worker>): (r: seq<Worker>)
    ensures |r| == |ws|
    ensures forall i :: 0 <= i < |ws| ==> r[i] == if ws[i].Waiting? then Waiting(ws[i].ticket, true) else ws[i]
  {
    seq(|ws|, i requires 0 <= i < |ws| => if ws[i].Waiting? then Waiting(ws[i].ticket, true) else ws[i])
  }

  function Do(s: System, a: Action): System
    requires Enabled(s, a)
  {
    match a
    case Enter(i, to) => s.(ws := s.ws[i := to])
    case Advance(i, to) =>
      if s.ws[i] == InInner then
        // the packet is submitted, the maintenance thread signalled, and inner released by the wait
        s.(ws := s.ws[i := to], incoming := Some(s.next), next := s.next + 1, m := Signal(s.m))
      else s.(ws := s.ws[i := to])
    case Spurious(i) => s.(ws := s.ws[i := Woken(s.ws[i].ticket)])
    case Maintain(turn) => s.(m := turn)
    case Consume =>
      System(SignalWorkers(s.ws), s.m, None, s.next, s.log + [s.incoming.value])
    case Timeout => s.(m := Resume)
  }

  predicate Start(s: System) {
    s.m == Resume && s.incoming == None && s.next == 0 && s.log == [] && forall i :: 0 <= i < |s.ws| ==> s.ws[i] == Idle
  }

  /** A run: `ss[i]` becomes `ss[i + 1]` by the action `acts[i]`. */
  ghost predicate IsRun(ss: seq<System>, acts: seq<Action>) {
    && |ss| == |acts| + 1 && Start(ss[0])
    && (forall i :: 0 <= i < |acts| ==> Enabled(ss[i], acts[i]) && ss[i + 1] == Do(ss[i], acts[i]))
  }

  // --- invariant --------------------------------------------------------------------------------------------------

  /** A submission and what became of it. */
  predicate TicketOk(s: System, w: Worker) {
    match w
    case Waiting(t, signalled) => t + 1 == s.next && (s.incoming.None? ==> signalled)
    case Woken(t) => t + 1 == s.next
    case Checking(t) => t + 1 == s.next
    case Leaving(t) => t + 1 == s.next && s.incoming.None?
    case WantInner => s.incoming.None?
    case InInner => s.incoming.None?
    case _ => true
  }

  /** The packet in the mailbox is the last submitted, all others have been consumed in order. */
  predicate MailOk(s: System) {
    && (forall i :: 0 <= i < |s.log| ==> s.log[i] == i)
    && |s.log| + (if s.incoming.Some? then 1 else 0) == s.next
    && (s.incoming.Some? ==> s.incoming.value == s.next - 1)
  }

  /** The mailbox protocol. */
  ghost predicate MailInv(s: System) {
    && MailOk(s)
    && (forall i :: 0 <= i < |s.ws| ==> TicketOk(s, s.ws[i]))
    // outer and inner are exclusive
    && (forall i, j :: 0 <= i < j < |s.ws| ==> !HoldsOuter(s.ws[i]) || !HoldsOuter(s.ws[j]))
    && (forall i :: 0 <= i < |s.ws| && HoldsInner(s.ws[i]) ==> !MaintainerInner(s.m))
    // the owner of the packet in the mailbox is still inside its call
    && (s.incoming.Some? ==> !OuterFree(s))
    // no wake-up is lost
    && (s.incoming.Some? && s.m.Asleep? ==> s.m.signalled)
  }

  /** The state lock is exclusive for writing. */
  ghost predicate StateLock(s: System) {
    && (MaintainerWrites(s.m) ==> NoReader(s) && NoSetter(s))
    && (forall i, j :: 0 <= i < |s.ws| && 0 <= j < |s.ws| && i != j && s.ws[i] == InSet ==>
          s.ws[j] != InSet && s.ws[j] != InState)
  }

  /** The list lock always is. */
  ghost predicate ListLock(s: System) {
    && (s.m == Resetting ==> forall i :: 0 <= i < |s.ws| ==> s.ws[i] != InList)
    && (forall i, j :: 0 <= i < j < |s.ws| ==> s.ws[i] != InList || s.ws[j] != InList)
  }

  ghost predicate LockInv(s: System) {
    StateLock(s) && ListLock(s)
  }

  ghost predicate Inv(s: System) {
    MailInv(s) && LockInv(s)
  }

  lemma MoveKeepsLocks(s: System, i: nat, to: Worker)
    requires LockInv(s) && i < |s.ws|
    requires to == InState ==> !MaintainerWrites(s.m) && NoSetter(s)
    requires to == InSet ==> !MaintainerWrites(s.m) && NoReader(s) && NoSetter(s)
    requires to == InList ==> ListFree(s)
    ensures LockInv(s.(ws := s.ws[i := to]))
  {
    hide MaintainerWrites;
  }

  lemma MaintainKeepsLocks(s: System, m: Maintainer)
    requires LockInv(s)
    requires MaintainerWrites(m) && !MaintainerWrites(s.m) ==> NoReader(s) && NoSetter(s)
    requires m == Resetting ==> ListFree(s)
    ensures LockInv(s.(m := m))
  {
    hide MaintainerWrites;
  }

  /** Signalling changes no lock. */
  lemma SignalKeepsLocks(s: System, s': System)
    requires LockInv(s) && s'.m == s.m && s'.ws == SignalWorkers(s.ws)
    ensures LockInv(s')
  {
    hide MaintainerWrites;
  }

  lemma SubmitKeepsLocks(s: System, s': System)
    requires LockInv(s) && s'.ws == s.ws && s'.m == Signal(s.m)
    ensures LockInv(s')
  {
  }

  lemma LocksKept(s: System, a: Action)
    requires Inv(s) && Enabled(s, a)
    ensures LockInv(Do(s, a))
  {
    hide MailInv, TicketOk, MailOk, LockInv, NoReader, NoSetter, ListFree, OuterFree, InnerFree;
    match a {
      case Enter(i, to) => MoveKeepsLocks(s, i, to);
      case Advance(i, to) =>
        MoveKeepsLocks(s, i, to);
        if s.ws[i] == InInner {
          SubmitKeepsLocks(s.(ws := s.ws[i := to]), Do(s, a));
        }
      case Spurious(i) => MoveKeepsLocks(s, i, Woken(s.ws[i].ticket));
      case Maintain(turn) => MaintainKeepsLocks(s, turn);
      case Consume => SignalKeepsLocks(s, Do(s, a));
      case Timeout => MaintainKeepsLocks(s, Resume);
    }
  }

  /** One worker moves on; it may come to hold outer only if that is free, and gives it up only
      when the mailbox is empty. */
  lemma MoveKeeps(s: System, i: nat, to: Worker)
    requires MailInv(s) && i < |s.ws| && TicketOk(s, to)
    requires HoldsOuter(to) && !HoldsOuter(s.ws[i]) ==> OuterFree(s)
    requires HoldsInner(to) ==> !MaintainerInner(s.m)
    requires s.incoming.Some? && HoldsOuter(s.ws[i]) ==> HoldsOuter(to)
    ensures MailInv(s.(ws := s.ws[i := to]))
  {
    hide MailOk, HoldsOuter, HoldsInner, MaintainerInner;
    var s' := s.(ws := s.ws[i := to]);
    if s.incoming.Some? {
      var k :| 0 <= k < |s.ws| && HoldsOuter(s.ws[k]);
      assert HoldsOuter(s'.ws[k]);
    }
    assert MailOk(s') by { SameMail(s, s'); }
  }

  lemma SameMail(s: System, s': System)
    requires MailOk(s) && s'.log == s.log && s'.incoming == s.incoming && s'.next == s.next
    ensures MailOk(s')
  {
  }

  lemma AdvanceKeeps(s: System, i: nat, to: Worker)
    requires MailInv(s) && Enabled(s, Advance(i, to)) && s.ws[i] != InInner
    ensures MailInv(Do(s, Advance(i, to)))
  {
    assert TicketOk(s, s.ws[i]);
    hide ListFree, NoReader, NoSetter, MailOk;
    assert s.incoming.Some? ==> !OuterFree(s);
    MoveKeeps(s, i, to);
  }

  lemma SubmitKeeps(s: System, i: nat, to: Worker)
    requires MailInv(s) && Enabled(s, Advance(i, to)) && s.ws[i] == InInner
    ensures s.incoming.None? && MailInv(Do(s, Advance(i, to)))
  {
    hide ListFree, NoReader, NoSetter;
    assert TicketOk(s, s.ws[i]);
    assert HoldsOuter(Do(s, Advance(i, to)).ws[i]);
  }

  lemma EnterKeeps(s: System, i: nat, to: Worker)
    requires MailInv(s) && Enabled(s, Enter(i, to))
    ensures MailInv(Do(s, Enter(i, to)))
  {
    hide ListFree, NoReader, NoSetter, SignalWorkers, CanAdvance, CanMaintain, MailInv;
    MoveKeeps(s, i, to);
  }

  lemma SpuriousKeeps(s: System, i: nat)
    requires MailInv(s) && Enabled(s, Spurious(i))
    ensures MailInv(Do(s, Spurious(i)))
  {
    assert TicketOk(s, s.ws[i]);
    hide ListFree, NoReader, NoSetter, SignalWorkers, CanAdvance, CanMaintain, MailInv;
    MoveKeeps(s, i, Woken(s.ws[i].ticket));
  }

  lemma MaintainerKeeps(s: System, a: Action)
    requires MailInv(s) && Enabled(s, a) && (a.Maintain? || a.Timeout? || a.Consume?)
    ensures MailInv(Do(s, a))
  {
    hide ListFree, NoReader, NoSetter;
  }

  lemma ActionKeeps(s: System, a: Action)
    requires Inv(s) && Enabled(s, a)
    ensures Inv(Do(s, a))
  {
    hide MailInv, LockInv;
    LocksKept(s, a);
    match a {
      case Advance(i, to) => if s.ws[i] == InInner { SubmitKeeps(s, i, to); } else { AdvanceKeeps(s, i, to); }
      case Enter(i, to) => EnterKeeps(s, i, to);
      case Spurious(i) => SpuriousKeeps(s, i);
      case Maintain(_) => MaintainerKeeps(s, a);
      case Consume => MaintainerKeeps(s, a);
      case Timeout => MaintainerKeeps(s, a);
    }
  }

  lemma {:induction false} RunKeeps(ss: seq<System>, acts: seq<Action>, i: nat)
    requires IsRun(ss, acts) && i < |ss|
    ensures Inv(ss[i])
  {
    hide MailInv, LockInv, Do, Enabled;
    if i > 0 {
      RunKeeps(ss, acts, i - 1);
      ActionKeeps(ss[i - 1], acts[i - 1]);
    } else {
      StartKeeps(ss[0]);
    }
  }

  lemma StartKeeps(s: System)
    requires Start(s)
    ensures Inv(s)
  {
  }

  // --- the mailbox handshake -----------------------------------------------------------------------------------------

  /** In every run: a packet is put in the mailbox only when it is empty; what is consumed is the
      packet of a thread still inside its call; a thread returns only after its packet was
      consumed; and every packet submitted so far was consumed exactly once, in order, except the
      one in the mailbox. */
  lemma Handshake(ss: seq<System>, acts: seq<Action>, i: nat)
    requires IsRun(ss, acts) && i < |acts|
    ensures var s, a := ss[i], acts[i];
            && (a.Advance? && s.ws[a.i] == InInner ==> s.incoming == None)
            && (a == Consume ==>
                  exists k :: 0 <= k < |s.ws| && HoldsOuter(s.ws[k]) && TicketIs(s.ws[k], s.incoming.value))
            && (a.Advance? && s.ws[a.i].Leaving? ==> s.ws[a.i].ticket in s.log)
            && (forall t :: 0 <= t < s.next && s.incoming != Some(t) ==> t < |s.log| && s.log[t] == t)
            && (forall j, k :: 0 <= j < k < |s.log| ==> s.log[j] != s.log[k])
            && (s.incoming.Some? ==> s.incoming.value !in s.log)
  {
    hide Do;
    RunKeeps(ss, acts, i);
    var s, a := ss[i], acts[i];
    assert Enabled(s, a);
    if a == Consume {
      var k :| 0 <= k < |s.ws| && HoldsOuter(s.ws[k]);
      assert TicketOk(s, s.ws[k]);
    }
    if a.Advance? {
      assert TicketOk(s, s.ws[a.i]);
      if s.ws[a.i].Leaving? {
        assert s.log[s.ws[a.i].ticket] == s.ws[a.i].ticket;
      }
    }
  }

  predicate TicketIs(w: Worker, t: nat) {
    (w.Waiting? || w.Woken? || w.Checking?) && w.ticket == t
  }

  // --- deadlock freedom ------------------------------------------------------------------------------------

  predicate WriterWaits(s: System) {
    s.m == WantWrite || exists i :: 0 <= i < |s.ws| && s.ws[i] == WantSet
  }

  /** A step that is neither a new call nor an accident of timing, and that a lock giving writers
      precedence over new readers allows as well. */
  predicate Progress(s: System, a: Action) {
    && Enabled(s, a)
    && (a.Advance? || a.Maintain? || a.Consume?)
    && (a.Advance? && s.ws[a.i] == WantState ==> !WriterWaits(s))
  }

  /** A worker that only needs locks that are free. */
  predicate Unblocked(w: Worker) {
    w == InState || w == InSet || w == InList || w == InInner || w.Checking? || w.Leaving?
  }

  lemma UnblockedMoves(s: System, i: nat) returns (a: Action)
    requires i < |s.ws| && Unblocked(s.ws[i])
    ensures Progress(s, a)
  {
    match s.ws[i]
    case InState => a := Advance(i, Idle);
    case InSet => a := Advance(i, Idle);
    case InList => a := Advance(i, Idle);
    case InInner => a := Advance(i, Waiting(s.next, false));
    case Checking(t) => a := Advance(i, if s.incoming.Some? then Waiting(t, false) else Leaving(t));
    case Leaving(_) => a := Advance(i, Idle);
  }

  /** If no worker is unblocked, the maintenance thread moves unless it sleeps unsignalled. */
  lemma MaintainerMoves(s: System) returns (a: Action)
    requires Inv(s) && s.m != Asleep(false)
    requires forall i :: 0 <= i < |s.ws| ==> !Unblocked(s.ws[i])
    ensures Progress(s, a)
  {
    match s.m
    case Resume => a := Maintain(Running);
    case Running => a := if s.incoming.Some? then Consume else Maintain(Asleep(false));
    case Asleep(_) => a := Maintain(Resume);
    case WantWrite => a := Maintain(Writing);
    case Writing => a := Maintain(Running);
    case WantReset => a := Maintain(Resetting);
    case Resetting => a := Maintain(Writing);
  }

  /** While the maintenance thread sleeps unsignalled, whoever holds outer moves. */
  lemma HolderMoves(s: System, i: nat) returns (a: Action)
    requires Inv(s) && s.m == Asleep(false) && i < |s.ws| && HoldsOuter(s.ws[i])
    requires forall i :: 0 <= i < |s.ws| ==> !Unblocked(s.ws[i])
    ensures Progress(s, a)
  {
    assert TicketOk(s, s.ws[i]);
    match s.ws[i]
    case WantInner => a := Advance(i, InInner);
    case Waiting(t, _) => a := Advance(i, Woken(t));
    case Woken(t) => a := Advance(i, Checking(t));
  }

  lemma WorkerMoves(s: System, i: nat) returns (a: Action)
    requires Inv(s) && s.m == Asleep(false) && i < |s.ws| && s.ws[i] != Idle
    requires forall i :: 0 <= i < |s.ws| ==> !Unblocked(s.ws[i])
    ensures Progress(s, a)
  {
    match s.ws[i] {
      case WantState =>
        if j :| 0 <= j < |s.ws| && s.ws[j] == WantSet {
          a := Advance(j, InSet);
        } else {
          a := Advance(i, InState);
        }
      case WantSet => a := Advance(i, InSet);
      case WantList => a := Advance(i, InList);
      case WantOuter =>
        if OuterFree(s) {
          a := Advance(i, WantInner);
        } else {
          var k :| 0 <= k < |s.ws| && HoldsOuter(s.ws[k]);
          a := HolderMoves(s, k);
        }
      case _ => a := HolderMoves(s, i);
    }
  }

  /** In no reachable state is everyone blocked: as long as some call is in progress, or the
      maintenance thread has something to do, some thread can take its next step. */
  lemma NoDeadlock(ss: seq<System>, acts: seq<Action>, n: nat) returns (a: Action)
    requires IsRun(ss, acts) && n < |ss|
    requires ss[n].m != Asleep(false) || exists i :: 0 <= i < |ss[n].ws| && ss[n].ws[i] != Idle
    ensures Progress(ss[n], a)
  {
    hide Do, Inv, Progress;
    RunKeeps(ss, acts, n);
    var s := ss[n];
    if i :| 0 <= i < |s.ws| && Unblocked(s.ws[i]) {
      a := UnblockedMoves(s, i);
    } else if s.m != Asleep(false) {
      a := MaintainerMoves(s);
    } else {
      var i :| 0 <= i < |s.ws| && s.ws[i] != Idle;
      a := WorkerMoves(s, i);
    }
  }

  // --- lock order ------------------------------------------------------------------------------------------

  datatype Lock = Outer | Inner | State | List

  function Rank(l: Lock): int {
    match l
    case Outer => 1
    case Inner => 2
    case State => 3
    case List => 4
  }

  predicate Holds(w: Worker, l: Lock) {
    match l
    case Outer => HoldsOuter(w)
    case Inner => HoldsInner(w)
    case State => w == InState || w == InSet
    case List => w == InList
  }

  predicate MaintainerHolds(m: Maintainer, l: Lock) {
    match l
    case Outer => false
    case Inner => MaintainerInner(m)
    case State => MaintainerWrites(m)
    case List => m == Resetting
  }

  predicate HoldsBelow(w: Worker, l: Lock) {
    forall h :: Holds(w, h) ==> Rank(h) < Rank(l)
  }

  predicate MaintainerHoldsBelow(m: Maintainer, l: Lock) {
    forall h :: MaintainerHolds(m, h) ==> Rank(h) < Rank(l)
  }

  /** Nobody holds the lock, except that readers share the state lock. */
  predicate FreeForWorker(s: System, l: Lock, to: Worker) {
    && !MaintainerHolds(s.m, l)
    && forall j :: 0 <= j < |s.ws| ==> !Holds(s.ws[j], l) || (to == InState && s.ws[j] == InState)
  }

  predicate FreeForMaintainer(s: System, l: Lock) {
    forall j :: 0 <= j < |s.ws| ==> !Holds(s.ws[j], l)
  }

  lemma WorkerTakes(s: System, a: Action, i: nat, l: Lock)
    requires Enabled(s, a) && i < |s.ws|
    requires !Holds(s.ws[i], l) && Holds(Do(s, a).ws[i], l)
    ensures HoldsBelow(s.ws[i], l) && FreeForWorker(s, l, Do(s, a).ws[i])
  {
    hide MaintainerWrites, MaintainerInner, CanMaintain;
  }

  lemma MaintainerTakes(s: System, a: Action, l: Lock)
    requires Enabled(s, a)
    requires !MaintainerHolds(s.m, l) && MaintainerHolds(Do(s, a).m, l)
    ensures MaintainerHoldsBelow(s.m, l) && FreeForMaintainer(s, l)
  {
  }

  /** In every run, a step by which a thread comes to hold a lock finds that lock free, and finds the
      thread holding only locks before it in the order outer, inner, state, list. */
  lemma LockOrder(ss: seq<System>, acts: seq<Action>, n: nat, l: Lock)
    requires IsRun(ss, acts) && n < |acts|
    ensures var s, s' := ss[n], ss[n + 1];
            && |s'.ws| == |s.ws|
            && (forall i :: 0 <= i < |s.ws| && !Holds(s.ws[i], l) && Holds(s'.ws[i], l) ==>
                  HoldsBelow(s.ws[i], l) && FreeForWorker(s, l, s'.ws[i]))
            && (!MaintainerHolds(s.m, l) && MaintainerHolds(s'.m, l) ==>
                  MaintainerHoldsBelow(s.m, l) && FreeForMaintainer(s, l))
  {
    var s, a := ss[n], acts[n];
    assert Enabled(s, a) && ss[n + 1] == Do(s, a);
    hide Holds, MaintainerHolds, HoldsBelow, MaintainerHoldsBelow, FreeForWorker, FreeForMaintainer, Enabled, IsRun;
    forall i | 0 <= i < |s.ws| && !Holds(s.ws[i], l) && Holds(Do(s, a).ws[i], l)
      ensures HoldsBelow(s.ws[i], l) && FreeForWorker(s, l, Do(s, a).ws[i])
    {
      WorkerTakes(s, a, i, l);
    }
    if !MaintainerHolds(s.m, l) && MaintainerHolds(Do(s, a).m, l) {
      MaintainerTakes(s, a, l);
    }
  }
}

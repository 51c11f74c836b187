/**
Streams opened by `v_secure_popen`: a singly linked registry of descriptor and process id
behind a mutex, and every interleaving of threads that open and close streams.
*/
module PopenRegistry {
  import opened Mutex
  import opened Descriptors

  datatype Entry = Entry(fd: nat, pid: nat)

  // ----- specification of the list -----

  /** Position of the first entry for a descriptor, the length if there is none. */
  function IndexOf(l: seq<Entry>, fd: nat): (k: nat)
    ensures k <= |l| && (k < |l| ==> l[k].fd == fd) && forall i :: 0 <= i < k ==> l[i].fd != fd
  {
    if l == [] || l[0].fd == fd then 0 else 1 + IndexOf(l[1..], fd)
  }

  function Remove(l: seq<Entry>, k: nat): seq<Entry>
    requires k < |l|
  {
    l[..k] + l[k + 1..]
  }

  ghost predicate Distinct(l: seq<Entry>)
  {
    forall i, j :: 0 <= i < j < |l| ==> l[i].fd != l[j].fd
  }

  /** The descriptors of a list. */
  function RegisteredFds(l: seq<Entry>): set<nat>
  {
    set e | e in l :: e.fd
  }

  lemma {:induction false} RegisteredLast(l: seq<Entry>, e: Entry)
    ensures RegisteredFds(l + [e]) == RegisteredFds(l) + {e.fd}
  {
    assert forall x :: x in l + [e] <==> x in l || x == e;
  }

  // ----- the linked list -----

  class Node {
    const fd: nat
    const pid: nat
    var next: Node?
    constructor (fd: nat, pid: nat, next: Node?)
      ensures this.fd == fd && this.pid == pid && this.next == next
    {
      this.fd, this.pid, this.next := fd, pid, next;
    }
  }

  ghost function Entries(nodes: seq<Node>): (l: seq<Entry>)
    ensures |l| == |nodes| && forall i :: 0 <= i < |l| ==> l[i] == Entry(nodes[i].fd, nodes[i].pid)
  {
    seq(|nodes|, i requires 0 <= i < |nodes| => Entry(nodes[i].fd, nodes[i].pid))
  }

  class Registry {
    var head: Node?
    ghost var nodes: seq<Node>

    /** Acyclic: the nodes are distinct and each leads to the next. */
    ghost predicate Valid()
      reads this, nodes
    {
      && head == (if nodes == [] then null else nodes[0])
      && (forall i, j :: 0 <= i < j < |nodes| ==> nodes[i] != nodes[j])
      && (nodes != [] ==> nodes[|nodes| - 1].next == null)
      && (forall i {:trigger nodes[i].next} :: 0 <= i < |nodes| - 1 ==> nodes[i].next == nodes[i + 1])
    }

    ghost function List(): seq<Entry>
      reads this
    {
      Entries(nodes)
    }

    constructor ()
      ensures Valid() && List() == [] && fresh(nodes)
    {
      head := null;
      nodes := [];
    }

    /** The registration at the end of a successful open. */
    method Push(fd: nat, pid: nat)
      requires Valid()
      modifies this
      ensures Valid() && List() == [Entry(fd, pid)] + old(List())
      ensures fresh(set n | n in nodes && n !in old(nodes))
    {
      var n := new Node(fd, pid, head);
      head := n;
      nodes := [n] + nodes;
    }

    method Search(fd: nat) returns (prev: Node?, cur: Node?, ghost k: nat)
      requires Valid()
      ensures k == IndexOf(List(), fd)
      ensures cur == null <==> forall i :: 0 <= i < |nodes| ==> nodes[i].fd != fd
      ensures cur != null ==> cur.fd == fd
      ensures cur == if k < |nodes| then nodes[k] else null
      ensures prev == if k == 0 then null else nodes[k - 1]
    {
      prev, cur := null, head;
      k := 0;
      while cur != null && cur.fd != fd
        invariant 0 <= k <= |nodes|
        invariant cur == if k < |nodes| then nodes[k] else null
        invariant prev == if k == 0 then null else nodes[k - 1]
        invariant forall i :: 0 <= i < k ==> nodes[i].fd != fd
        decreases |nodes| - k
      {
        assert k < |nodes| - 1 ==> nodes[k].next == nodes[k + 1];
        prev, cur := cur, cur.next;
        k := k + 1;
      }
      IndexOfIs(List(), fd, k);
    }

    method Detach(prev: Node?, cur: Node, ghost k: nat)
      requires Valid() && k < |nodes| && cur == nodes[k]
      requires prev == if k == 0 then null else nodes[k - 1]
      modifies this, nodes
      ensures Valid() && nodes == old(nodes)[..k] + old(nodes)[k + 1..]
    {
      ghost var after := if k + 1 < |nodes| then nodes[k + 1] else null;
      assert cur.next == after;
      if prev == null {
        head := cur.next;
      } else {
        prev.next := cur.next;
      }
      nodes := nodes[..k] + nodes[k + 1..];
    }

    /** The loop of a new child over the registry: it closes the descriptor of every entry. */
    method CloseInChild(t: FdTable) returns (r: FdTable)
      requires Valid()
      ensures r == t - RegisteredFds(List())
    {
      r := t;
      var p := head;
      ghost var k := 0;
      while p != null
        invariant 0 <= k <= |nodes|
        invariant p == if k < |nodes| then nodes[k] else null
        invariant r == t - RegisteredFds(List()[..k])
        decreases |nodes| - k
      {
        assert k < |nodes| - 1 ==> nodes[k].next == nodes[k + 1];
        assert List()[..k + 1] == List()[..k] + [List()[k]];
        RegisteredLast(List()[..k], List()[k]);
        assert t - RegisteredFds(List()[..k]) - {p.fd} == t - RegisteredFds(List()[..k + 1]);
        r := CloseCall(r, p.fd);
        p := p.next;
        k := k + 1;
      }
      assert List()[..k] == List();
    }

    /** The search, wait and unlinking of `v_secure_pclose`: the process waited for, or nothing and no change. */
    method Unlink(fd: nat) returns (found: bool, pid: nat)
      requires Valid()
      modifies this, nodes
      ensures Valid()
      ensures var k := IndexOf(old(List()), fd);
              && found == (k < |old(List())|)
              && List() == (if found then Remove(old(List()), k) else old(List()))
              && (found ==> pid == old(List())[k].pid)
    {
      var prev, cur;
      ghost var k;
      prev, cur, k := Search(fd);
      if cur == null {
        return false, 0;
      }
      found, pid := true, cur.pid;
      EntriesRemove(nodes, k);
      Detach(prev, cur, k);
    }
  }

  lemma {:induction false} IndexOfIs(l: seq<Entry>, fd: nat, k: nat)
    requires k <= |l| && (k < |l| ==> l[k].fd == fd) && forall i :: 0 <= i < k ==> l[i].fd != fd
    ensures IndexOf(l, fd) == k
  {
    var i := IndexOf(l, fd);
    assert i == |l| || l[i].fd == fd;
  }

  lemma {:induction false} EntriesRemove(nodes: seq<Node>, k: nat)
    requires k < |nodes|
    ensures Entries(nodes[..k] + nodes[k + 1..]) == Remove(Entries(nodes), k)
  {
  }

  // ----- threads -----

  /** Where a thread stands. All but the first and the last hold the mutex. */
  datatype Pc =
    | Piped(keep: nat, give: nat)          // pipe made, command parsed, mutex not yet taken
    | Forking(keep: nat, give: nat)
    | Seeking(fd: nat)
    | Closing(fd: nat, pid: nat)           // entry found and stream closed, waiting for its process
    | Leaving                              // about to unlock
    | Registered(fd: nat)                  // about to unlock with an entry just made
    | Returning(fd: nat)                   // unlocked, `fdopen` to come

  /** What became of a registered descriptor: a thread will make a stream of it, has done so, or failed to. */
  datatype Place = OnItsWay(tid: nat) | InUse | Lost

  /** The process recorded with a descriptor, and what became of the descriptor. */
  datatype Record = Record(pid: nat, place: Place)

  /** `recorded` holds each descriptor registered and not yet closed. */
  datatype State = State(
    open: set<nat>, list: seq<Entry>, recorded: map<nat, Record>, lock: Holder, threads: map<nat, Pc>)

  predicate IsIn(s: State, fd: nat, place: Place) { fd in s.recorded && s.recorded[fd].place == place }

  datatype Action =
    | MakePipe(keep: nat, give: nat) | Abandon
    | TakeLock | ForkFails | Forked(pid: nat)
    | StartClose(fd: nat) | NotFound | CloseStream | Reaped
    | Unlock | Fdopened | FdopenFails
    | OpenOther(fd: nat) | CloseOther(fd: nat)

  function Holds(pc: Pc): bool { !pc.Piped? && !pc.Returning? }

  /** Descriptors of pipes that a thread has made and not yet handed out. */
  function InFlight(pc: Pc): set<nat>
  {
    match pc
    case Piped(keep, give) => {keep, give}
    case Forking(keep, give) => {keep, give}
    case _ => {}
  }

  /** A thread that has registered a descriptor and not yet made a stream of it. */
  predicate Carries(pc: Pc, fd: nat) { pc == Registered(fd) || pc == Returning(fd) }

  predicate TwoEnds(pc: Pc) { pc.Piped? || pc.Forking? ==> pc.keep != pc.give }

  ghost predicate Claimed(s: State, fd: nat)
  {
    fd in s.recorded || exists t :: t in s.threads && fd in InFlight(s.threads[t])
  }

  ghost predicate Enabled(s: State, t: nat, a: Action)
  {
    match a
    case MakePipe(keep, give) => t !in s.threads && keep != give && keep !in s.open && give !in s.open
    case Abandon => t in s.threads && s.threads[t].Piped?
    case TakeLock => t in s.threads && s.threads[t].Piped? && s.lock == Free
    case ForkFails => t in s.threads && s.threads[t].Forking?
    case Forked(_) => t in s.threads && s.threads[t].Forking?
    case StartClose(fd) =>
      t !in s.threads && s.lock == Free && (IsIn(s, fd, InUse) || (fd in s.open && !Claimed(s, fd)))
    case NotFound => t in s.threads && s.threads[t].Seeking? && IndexOf(s.list, s.threads[t].fd) == |s.list|
    case CloseStream => t in s.threads && s.threads[t].Seeking? && IndexOf(s.list, s.threads[t].fd) < |s.list|
    case Reaped => t in s.threads && s.threads[t].Closing? && IndexOf(s.list, s.threads[t].fd) < |s.list|
    case Unlock => t in s.threads && (s.threads[t].Leaving? || s.threads[t].Registered?)
    case Fdopened => t in s.threads && s.threads[t].Returning? && s.threads[t].fd in s.recorded
    case FdopenFails => t in s.threads && s.threads[t].Returning? && s.threads[t].fd in s.recorded
    case OpenOther(fd) => fd !in s.open
    case CloseOther(fd) => fd in s.open && !Claimed(s, fd)
  }

  /** What a returning thread carries is always recorded, by `HandedOk`. */
  function Settle(s: State, t: nat, place: Place): State
    requires t in s.threads && s.threads[t].Returning? && s.threads[t].fd in s.recorded
  {
    var fd := s.threads[t].fd;
    s.(recorded := s.recorded[fd := s.recorded[fd].(place := place)], threads := s.threads - {t})
  }

  ghost function Act(s: State, t: nat, a: Action): State
    requires Enabled(s, t, a)
  {
    match a
    case MakePipe(keep, give) => s.(open := s.open + {keep, give}, threads := s.threads[t := Piped(keep, give)])
    case Abandon => s.(open := s.open - InFlight(s.threads[t]), threads := s.threads - {t})
    case TakeLock =>
      s.(lock := HeldBy(t), threads := s.threads[t := Forking(s.threads[t].keep, s.threads[t].give)])
    case ForkFails => s.(open := s.open - InFlight(s.threads[t]), threads := s.threads[t := Leaving])
    case Forked(pid) =>
      var pc := s.threads[t];
      s.(open := s.open - {pc.give}, list := [Entry(pc.keep, pid)] + s.list,
         recorded := s.recorded[pc.keep := Record(pid, OnItsWay(t))], threads := s.threads[t := Registered(pc.keep)])
    case StartClose(fd) => s.(lock := HeldBy(t), threads := s.threads[t := Seeking(fd)])
    case NotFound => s.(threads := s.threads[t := Leaving])
    case CloseStream =>
      var fd := s.threads[t].fd;
      s.(open := s.open - {fd}, recorded := s.recorded - {fd},
         threads := s.threads[t := Closing(fd, s.list[IndexOf(s.list, fd)].pid)])
    case Reaped =>
      s.(list := Remove(s.list, IndexOf(s.list, s.threads[t].fd)), threads := s.threads[t := Leaving])
    case Unlock =>
      var pc := s.threads[t];
      s.(lock := Free, threads := if pc.Registered? then s.threads[t := Returning(pc.fd)] else s.threads - {t})
    case Fdopened => Settle(s, t, InUse)
    case FdopenFails => Settle(s, t, Lost)
    case OpenOther(fd) => s.(open := s.open + {fd})
    case CloseOther(fd) => s.(open := s.open - {fd})
  }

  /** The entry that the holder of the mutex is about to unlink, if it has closed a stream. */
  ghost predicate BeingClosed(s: State, e: Entry)
  {
    exists t :: t in s.threads && s.threads[t] == Closing(e.fd, e.pid)
  }

  ghost predicate MutexOk(s: State)
  {
    && (forall t :: t in s.threads && Holds(s.threads[t]) ==> s.lock == HeldBy(t))
    && (s.lock.HeldBy? ==> s.lock.tid in s.threads && Holds(s.threads[s.lock.tid]))
  }

  /** Descriptors are claimed once: by one stream or by one end of one thread's pipe. */
  ghost predicate ClaimsOk(s: State)
  {
    && (forall fd :: fd in s.recorded ==> fd in s.open)
    && (forall t :: t in s.threads ==> InFlight(s.threads[t]) <= s.open && InFlight(s.threads[t]) !! s.recorded.Keys)
    && (forall t, u :: t in s.threads && u in s.threads && t != u ==> InFlight(s.threads[t]) !! InFlight(s.threads[u]))
    && (forall t :: t in s.threads ==> TwoEnds(s.threads[t]))
  }

  ghost predicate Recorded(s: State, e: Entry) { e.fd in s.recorded && s.recorded[e.fd].pid == e.pid }

  /** The registry is exactly what is recorded, plus the entry being closed. */
  ghost predicate RegistryOk(s: State)
  {
    && Distinct(s.list)
    && (forall e :: e in s.list <==> Recorded(s, e) || BeingClosed(s, e))
    && (forall e :: BeingClosed(s, e) ==> e.fd !in s.recorded)
  }

  /**
  A descriptor is on its way exactly while its thread carries it, and what a close looks for is in
  use or not recorded.
  */
  ghost predicate HandedOk(s: State)
  {
    && (forall t, fd :: IsIn(s, fd, OnItsWay(t)) <==> t in s.threads && Carries(s.threads[t], fd))
    && (forall t :: t in s.threads && s.threads[t].Seeking? && s.threads[t].fd in s.recorded ==>
        IsIn(s, s.threads[t].fd, InUse))
  }

  ghost predicate Inv(s: State) { MutexOk(s) && ClaimsOk(s) && RegistryOk(s) && HandedOk(s) }

  lemma {:induction false} MutexStep(s: State, t: nat, a: Action)
    requires MutexOk(s) && Enabled(s, t, a)
    ensures MutexOk(Act(s, t, a))
  {
  }

  lemma {:induction false} ClaimsStep(s: State, t: nat, a: Action)
    requires ClaimsOk(s) && Enabled(s, t, a)
    requires a.CloseStream? ==> t in s.threads && s.threads[t].Seeking? && s.threads[t].fd in s.recorded
    ensures ClaimsOk(Act(s, t, a))
  {
    hide ClaimsOk;
    hide Enabled;
    hide Act;
    if a.MakePipe? || a.TakeLock? || a.StartClose? {
      ClaimsGrow(s, t, a);
    } else if a.Abandon? || a.ForkFails? || a.Forked? {
      ClaimsShrink(s, t, a);
    } else if a.CloseStream? || a.CloseOther? {
      ClaimsFreed(s, t, a);
    } else {
      ClaimsSame(s, t, a);
    }
  }

  /** Claims survive the closing of a descriptor that no pipe in the making has. */
  lemma {:induction false} ClaimsWithout(s: State, s': State, fd: nat)
    requires ClaimsOk(s) && s'.open == s.open - {fd} && s'.recorded.Keys == s.recorded.Keys - {fd}
    requires forall u :: u in s'.threads ==>
               && u in s.threads && InFlight(s'.threads[u]) == InFlight(s.threads[u]) && TwoEnds(s'.threads[u])
               && fd !in InFlight(s.threads[u])
    ensures ClaimsOk(s')
  {
  }

  lemma {:induction false} ClaimsFreed(s: State, t: nat, a: Action)
    requires ClaimsOk(s) && Enabled(s, t, a) && (a.CloseStream? || a.CloseOther?)
    requires a.CloseStream? ==> t in s.threads && s.threads[t].Seeking? && s.threads[t].fd in s.recorded
    ensures ClaimsOk(Act(s, t, a))
  {
    hide IndexOf;
    var s', fd := Act(s, t, a), if a.CloseOther? then a.fd else s.threads[t].fd;
    assert s'.recorded.Keys == s.recorded.Keys - {fd};
    forall u | u in s'.threads
      ensures u in s.threads && InFlight(s'.threads[u]) == InFlight(s.threads[u]) && TwoEnds(s'.threads[u])
      ensures fd !in InFlight(s.threads[u])
    {
    }
    ClaimsWithout(s, s', fd);
    hide ClaimsOk;
  }

  /** Claims survive what opens descriptors or lets threads go. */
  lemma {:induction false} ClaimsFrame(s: State, s': State)
    requires ClaimsOk(s) && s.open <= s'.open && s'.recorded.Keys == s.recorded.Keys
    requires forall u :: u in s'.threads ==>
               u in s.threads && InFlight(s'.threads[u]) == InFlight(s.threads[u]) && TwoEnds(s'.threads[u])
    ensures ClaimsOk(s')
  {
  }

  lemma {:induction false} ClaimsSame(s: State, t: nat, a: Action)
    requires ClaimsOk(s) && Enabled(s, t, a)
    requires a.NotFound? || a.Reaped? || a.Unlock? || a.Fdopened? || a.FdopenFails? || a.OpenOther?
    ensures ClaimsOk(Act(s, t, a))
  {
    hide IndexOf;
    var s' := Act(s, t, a);
    forall u | u in s'.threads
      ensures u in s.threads && InFlight(s'.threads[u]) == InFlight(s.threads[u]) && TwoEnds(s'.threads[u])
    {
    }
    assert s'.recorded.Keys == s.recorded.Keys;
    ClaimsFrame(s, s');
    hide ClaimsOk;
  }

  lemma {:induction false} ClaimsGrow(s: State, t: nat, a: Action)
    requires ClaimsOk(s) && Enabled(s, t, a) && (a.MakePipe? || a.TakeLock? || a.StartClose?)
    ensures ClaimsOk(Act(s, t, a))
  {
    var s' := Act(s, t, a);
    assert forall u :: u in s'.threads && u != t ==> u in s.threads && s'.threads[u] == s.threads[u];
  }

  lemma {:induction false} ClaimsShrink(s: State, t: nat, a: Action)
    requires ClaimsOk(s) && Enabled(s, t, a) && (a.Abandon? || a.ForkFails? || a.Forked?)
    ensures ClaimsOk(Act(s, t, a))
  {
    var s' := Act(s, t, a);
    assert forall u :: u in s'.threads && u != t ==> u in s.threads && s'.threads[u] == s.threads[u];
    assert t in s'.threads ==> InFlight(s'.threads[t]) == {};
  }

  lemma {:induction false} FoundIsRecorded(s: State, t: nat)
    requires Inv(s) && Enabled(s, t, CloseStream)
    ensures t in s.threads && s.threads[t].Seeking? && s.threads[t].fd in s.recorded
  {
    var e := s.list[IndexOf(s.list, s.threads[t].fd)];
    assert e in s.list;
    OnlyHolderCloses(s, t, e);
  }

  /** Only the holder of the mutex can have closed a stream and not yet unlinked its entry. */
  lemma {:induction false} OnlyHolderCloses(s: State, t: nat, e: Entry)
    requires MutexOk(s) && t in s.threads && Holds(s.threads[t])
    ensures BeingClosed(s, e) <==> s.threads[t] == Closing(e.fd, e.pid)
  {
    if BeingClosed(s, e) {
      var u :| u in s.threads && s.threads[u] == Closing(e.fd, e.pid);
      assert s.lock == HeldBy(u);
    }
  }

  lemma {:induction false} RegistryStep(s: State, t: nat, a: Action)
    requires Inv(s) && Enabled(s, t, a)
    ensures RegistryOk(Act(s, t, a))
  {
    hide Distinct;
    hide ClaimsOk;
    match a
    case Forked(pid) => RegistryForked(s, t, pid);
    case CloseStream => RegistryClosed(s, t);
    case Reaped => RegistryReaped(s, t);
    case _ => RegistryUntouched(s, t, a);
  }

  /** The registry stays right when no process, entry or closing thread changes. */
  lemma {:induction false} RegistryFrame(s: State, s': State)
    requires RegistryOk(s) && s'.list == s.list && s'.recorded.Keys == s.recorded.Keys
    requires forall fd :: fd in s.recorded ==> s'.recorded[fd].pid == s.recorded[fd].pid
    requires forall u, fd, pid ::
               u in s.threads && s.threads[u] == Closing(fd, pid) <==>
               u in s'.threads && s'.threads[u] == Closing(fd, pid)
    ensures RegistryOk(s')
  {
    hide Distinct;
    forall e
      ensures BeingClosed(s', e) <==> BeingClosed(s, e)
    {
    }
    forall e
      ensures Recorded(s', e) <==> Recorded(s, e)
    {
    }
  }

  lemma {:induction false} RegistryUntouched(s: State, t: nat, a: Action)
    requires RegistryOk(s) && Enabled(s, t, a) && !a.Forked? && !a.CloseStream? && !a.Reaped?
    ensures RegistryOk(Act(s, t, a))
  {
    hide RegistryOk;
    hide IndexOf;
    hide Claimed;
    var s' := Act(s, t, a);
    assert s'.list == s.list && s'.recorded.Keys == s.recorded.Keys;
    RegistryFrame(s, s');
  }

  lemma {:induction false} RegistryForked(s: State, t: nat, pid: nat)
    requires Inv(s) && Enabled(s, t, Forked(pid))
    ensures RegistryOk(Act(s, t, Forked(pid)))
  {
    var s' := Act(s, t, Forked(pid));
    var keep := s.threads[t].keep;
    var e0 := Entry(keep, pid);
    assert keep in InFlight(s.threads[t]) && keep !in s.recorded;
    MutexStep(s, t, Forked(pid));
    forall e
      ensures !BeingClosed(s, e) && !BeingClosed(s', e)
      ensures e in s'.list <==> e == e0 || e in s.list
    {
      OnlyHolderCloses(s, t, e);
      OnlyHolderCloses(s', t, e);
    }
    assert forall i :: 0 <= i < |s.list| ==> s.list[i] in s.list && s.list[i].fd != keep;
    assert Distinct(s'.list);
  }

  lemma {:induction false} RegistryClosed(s: State, t: nat)
    requires Inv(s) && Enabled(s, t, CloseStream)
    ensures RegistryOk(Act(s, t, CloseStream))
  {
    hide ClaimsOk;
    var s' := Act(s, t, CloseStream);
    var k := IndexOf(s.list, s.threads[t].fd);
    assert s.list[k] in s.list;
    MutexStep(s, t, CloseStream);
    forall e
      ensures !BeingClosed(s, e) && (BeingClosed(s', e) <==> e == s.list[k])
      ensures Recorded(s', e) <==> Recorded(s, e) && e != s.list[k]
    {
      OnlyHolderCloses(s, t, e);
      OnlyHolderCloses(s', t, e);
      assert Recorded(s, s.list[k]);
    }
  }

  lemma {:induction false} RemoveMembers(l: seq<Entry>, k: nat)
    requires Distinct(l) && k < |l|
    ensures Distinct(Remove(l, k))
    ensures forall e :: e in Remove(l, k) <==> e in l && e != l[k]
  {
    var r := Remove(l, k);
    assert forall i :: 0 <= i < |r| ==> r[i] == l[if i < k then i else i + 1];
    forall e | e in l && e != l[k]
      ensures e in r
    {
      var i :| 0 <= i < |l| && l[i] == e;
      assert r[if i < k then i else i - 1] == e;
    }
  }

  lemma {:induction false} RegistryReaped(s: State, t: nat)
    requires Inv(s) && Enabled(s, t, Reaped)
    ensures RegistryOk(Act(s, t, Reaped))
  {
    hide ClaimsOk;
    hide Remove;
    var s' := Act(s, t, Reaped);
    var k := IndexOf(s.list, s.threads[t].fd);
    var gone := Entry(s.threads[t].fd, s.threads[t].pid);
    OnlyHolderCloses(s, t, gone);
    assert gone in s.list;
    assert s.list[k] == gone by {
      var i :| 0 <= i < |s.list| && s.list[i] == gone;
    }
    RemoveMembers(s.list, k);
    MutexStep(s, t, Reaped);
    forall e
      ensures (BeingClosed(s, e) <==> e == gone) && !BeingClosed(s', e)
    {
      OnlyHolderCloses(s, t, e);
      OnlyHolderCloses(s', t, e);
    }
  }

  lemma {:induction false} HandedStep(s: State, t: nat, a: Action)
    requires Inv(s) && Enabled(s, t, a)
    ensures HandedOk(Act(s, t, a))
  {
    hide HandedOk;
    hide Enabled;
    hide Act;
    match a
    case Forked(pid) => HandedForked(s, t, pid);
    case CloseStream => HandedClosed(s, t);
    case Unlock => HandedUnlocked(s, t);
    case Fdopened => HandedOut(s, t, a);
    case FdopenFails => HandedOut(s, t, a);
    case StartClose(fd) => HandedSought(s, t, fd);
    case _ => HandedSame(s, t, a);
  }

  lemma {:induction false} HandedForked(s: State, t: nat, pid: nat)
    requires MutexOk(s) && ClaimsOk(s) && HandedOk(s) && Enabled(s, t, Forked(pid))
    ensures HandedOk(Act(s, t, Forked(pid)))
  {
    var s', keep := Act(s, t, Forked(pid)), s.threads[t].keep;
    assert keep in InFlight(s.threads[t]) && keep !in s.recorded;
    hide ClaimsOk;
    assert forall u :: u in s.threads && u != t ==> s'.threads[u] == s.threads[u] && !s.threads[u].Seeking?;
    forall u, x
      ensures IsIn(s', x, OnItsWay(u)) <==> IsIn(s, x, OnItsWay(u)) || (u == t && x == keep)
      ensures u in s'.threads && Carries(s'.threads[u], x) <==>
              (u in s.threads && Carries(s.threads[u], x)) || (u == t && x == keep)
    {
    }
  }

  lemma {:induction false} HandedClosed(s: State, t: nat)
    requires Inv(s) && Enabled(s, t, CloseStream)
    ensures HandedOk(Act(s, t, CloseStream))
  {
    hide ClaimsOk;
    FoundIsRecorded(s, t);
    hide RegistryOk;
    hide IndexOf;
    var s', fd := Act(s, t, CloseStream), s.threads[t].fd;
    assert IsIn(s, fd, InUse);
    assert forall x :: x in s'.recorded <==> x in s.recorded && x != fd;
    assert forall u :: u in s.threads && u != t ==> s'.threads[u] == s.threads[u] && !s.threads[u].Seeking?;
    forall u, x
      ensures IsIn(s', x, OnItsWay(u)) <==> IsIn(s, x, OnItsWay(u))
    {
    }
  }

  lemma {:induction false} HandedUnlocked(s: State, t: nat)
    requires HandedOk(s) && Enabled(s, t, Unlock)
    ensures HandedOk(Act(s, t, Unlock))
  {
    var s' := Act(s, t, Unlock);
    forall u, fd
      ensures u in s'.threads && Carries(s'.threads[u], fd) <==> u in s.threads && Carries(s.threads[u], fd)
    {
    }
    assert forall u, fd :: IsIn(s', fd, OnItsWay(u)) <==> IsIn(s, fd, OnItsWay(u));
  }

  lemma {:induction false} HandedOut(s: State, t: nat, a: Action)
    requires HandedOk(s) && Enabled(s, t, a) && (a.Fdopened? || a.FdopenFails?)
    ensures HandedOk(Act(s, t, a))
  {
    var s', fd := Act(s, t, a), s.threads[t].fd;
    assert Carries(s.threads[t], fd) && IsIn(s, fd, OnItsWay(t));
    assert forall u :: u in s'.threads <==> u in s.threads && u != t;
    forall u, x
      ensures IsIn(s', x, OnItsWay(u)) <==> IsIn(s, x, OnItsWay(u)) && u != t
    {
      assert IsIn(s, x, OnItsWay(t)) <==> x == fd;
    }
  }

  lemma {:induction false} HandedSought(s: State, t: nat, fd: nat)
    requires HandedOk(s) && Enabled(s, t, StartClose(fd))
    ensures HandedOk(Act(s, t, StartClose(fd)))
  {
    var s' := Act(s, t, StartClose(fd));
    assert !IsIn(s, fd, InUse) ==> fd !in s.recorded;
    assert forall u :: u != t ==> (u in s'.threads <==> u in s.threads);
    assert forall u :: u in s.threads ==> s'.threads[u] == s.threads[u];
    assert forall u, x :: IsIn(s', x, OnItsWay(u)) <==> IsIn(s, x, OnItsWay(u));
  }

  lemma {:induction false} HandedSame(s: State, t: nat, a: Action)
    requires HandedOk(s) && Enabled(s, t, a)
    requires !a.Forked? && !a.CloseStream? && !a.Unlock? && !a.Fdopened? && !a.FdopenFails? && !a.StartClose?
    ensures HandedOk(Act(s, t, a))
  {
    hide IndexOf;
    hide Claimed;
    hide InFlight;
    hide Remove;
    var s' := Act(s, t, a);
    assert s'.recorded == s.recorded;
    forall u
      ensures u in s'.threads && !s'.threads[u].Piped? && !s'.threads[u].Forking? && !s'.threads[u].Leaving? ==>
                u in s.threads && s'.threads[u] == s.threads[u]
      ensures u in s.threads && (s.threads[u].Registered? || s.threads[u].Returning?) ==>
              u in s'.threads && s'.threads[u] == s.threads[u]
    {
    }
    hide Enabled;
    hide Act;
    forall u, x
      ensures IsIn(s', x, OnItsWay(u)) <==> IsIn(s, x, OnItsWay(u))
      ensures u in s'.threads && Carries(s'.threads[u], x) <==> u in s.threads && Carries(s.threads[u], x)
    {
    }
  }

  // ----- whole runs -----

  datatype Step = Step(tid: nat, action: Action)

  /** A run: a sequence of states, each got from the one before by an enabled step. */
  ghost predicate IsRun(run: seq<State>, steps: seq<Step>)
  {
    && |run| == |steps| + 1
    && run[0].list == [] && run[0].recorded == map[] && run[0].lock == Free && run[0].threads == map[]
    && forall i :: 0 <= i < |steps| ==>
         Enabled(run[i], steps[i].tid, steps[i].action) && run[i + 1] == Act(run[i], steps[i].tid, steps[i].action)
  }

  /** In every state of every interleaving the registry is what it should be. */
  lemma {:induction false} EveryState(run: seq<State>, steps: seq<Step>, n: nat)
    requires IsRun(run, steps) && n < |run|
    ensures Inv(run[n])
    decreases n
  {
    hide Enabled;
    hide Act;
    if n > 0 {
      EveryState(run, steps, n - 1);
      var s, st := run[n - 1], steps[n - 1];
      if st.action.CloseStream? {
        FoundIsRecorded(s, st.tid);
      }
      HandedStep(s, st.tid, st.action);
      MutexStep(s, st.tid, st.action);
      ClaimsStep(s, st.tid, st.action);
      RegistryStep(s, st.tid, st.action);
    }
  }

  /**
  Whenever no stream is half closed the registry lists exactly what is recorded, each once:
  streams in use, streams on their way to the caller, and those that `fdopen` failed to make.
  A close finds exactly the streams in use, and waits for the process recorded with it.
  */
  lemma {:induction false} RegistryIsRecorded(run: seq<State>, steps: seq<Step>, n: nat)
    requires IsRun(run, steps) && n < |run|
    ensures var s := run[n];
            && Distinct(s.list)
            && ((forall t :: t in s.threads ==> !s.threads[t].Closing?) ==>
                  forall fd, pid :: Entry(fd, pid) in s.list <==> fd in s.recorded && s.recorded[fd].pid == pid)
    ensures n < |steps| && steps[n].action.CloseStream? ==>
            var s, t := run[n], steps[n].tid;
            && IsIn(s, s.threads[t].fd, InUse)
            && run[n + 1].threads[t] == Closing(s.threads[t].fd, s.recorded[s.threads[t].fd].pid)
    ensures n < |steps| && steps[n].action.NotFound? ==>
            var s, t := run[n], steps[n].tid;
            !IsIn(s, s.threads[t].fd, InUse) && run[n + 1].list == s.list && run[n + 1].open == s.open
  {
    EveryState(run, steps, n);
    var s := run[n];
    if n < |steps| && steps[n].action.CloseStream? {
      FoundIsRecorded(s, steps[n].tid);
      FoundProcess(s, steps[n].tid);
    } else if n < |steps| && steps[n].action.NotFound? {
      NotFoundIsUnused(s, steps[n].tid);
    }
    hide HandedOk;
    hide ClaimsOk;
    assert forall fd, pid :: Recorded(s, Entry(fd, pid)) <==> fd in s.recorded && s.recorded[fd].pid == pid;
  }

  lemma {:induction false} FoundProcess(s: State, t: nat)
    requires Inv(s) && Enabled(s, t, CloseStream)
    ensures Recorded(s, s.list[IndexOf(s.list, s.threads[t].fd)])
  {
    var e := s.list[IndexOf(s.list, s.threads[t].fd)];
    assert e in s.list;
    OnlyHolderCloses(s, t, e);
  }

  lemma {:induction false} NotFoundIsUnused(s: State, t: nat)
    requires Inv(s) && Enabled(s, t, NotFound)
    ensures s.threads[t].fd !in s.recorded
  {
    hide ClaimsOk;
    hide HandedOk;
    var fd := s.threads[t].fd;
    forall i | 0 <= i < |s.list|
      ensures s.list[i].fd != fd
    {
    }
    assert fd in s.recorded ==> Recorded(s, Entry(fd, s.recorded[fd].pid));
  }

  ghost predicate FdopenFailed(steps: seq<Step>, n: nat)
    requires n <= |steps|
  {
    exists i :: 0 <= i < n && steps[i].action.FdopenFails?
  }

  ghost predicate HasLost(s: State) { exists fd :: IsIn(s, fd, Lost) }

  lemma {:induction false} LostStep(s: State, t: nat, a: Action)
    requires Inv(s) && Enabled(s, t, a)
    ensures HasLost(Act(s, t, a)) <==> HasLost(s) || a.FdopenFails?
  {
    hide ClaimsOk;
    var s' := Act(s, t, a);
    if a.CloseStream? {
      FoundIsRecorded(s, t);
      hide RegistryOk;
      assert IsIn(s, s.threads[t].fd, InUse);
      assert forall fd :: IsIn(s', fd, Lost) <==> IsIn(s, fd, Lost);
    } else if a.FdopenFails? {
      assert IsIn(s', s.threads[t].fd, Lost);
    } else if a.Forked? {
      ForkedIsNew(s, t, a.pid);
      assert forall fd :: IsIn(s', fd, Lost) <==> IsIn(s, fd, Lost);
    } else if a.Fdopened? {
      assert Carries(s.threads[t], s.threads[t].fd);
      assert IsIn(s, s.threads[t].fd, OnItsWay(t));
      assert forall fd :: IsIn(s', fd, Lost) <==> IsIn(s, fd, Lost);
    } else {
      assert s'.recorded == s.recorded;
      assert forall fd :: IsIn(s', fd, Lost) <==> IsIn(s, fd, Lost);
    }
  }

  lemma ForkedIsNew(s: State, t: nat, pid: nat)
    requires ClaimsOk(s) && Enabled(s, t, Forked(pid))
    ensures s.threads[t].keep !in s.recorded
  {
    assert s.threads[t].keep in InFlight(s.threads[t]);
  }

  lemma {:induction false} LostIffFailed(run: seq<State>, steps: seq<Step>, n: nat)
    requires IsRun(run, steps) && n < |run|
    ensures HasLost(run[n]) <==> FdopenFailed(steps, n)
    decreases n
  {
    hide Enabled;
    hide Act;
    hide Inv;
    hide HasLost;
    if n > 0 {
      LostIffFailed(run, steps, n - 1);
      EveryState(run, steps, n - 1);
      LostStep(run[n - 1], steps[n - 1].tid, steps[n - 1].action);
      assert FdopenFailed(steps, n) <==> FdopenFailed(steps, n - 1) || steps[n - 1].action.FdopenFails?;
    } else {
      NothingLost(run[0]);
    }
  }

  lemma NothingLost(s: State)
    requires s.recorded == map[]
    ensures !HasLost(s)
  {
  }

  /** With no call in progress, the registry is exactly the streams in use if and only if `fdopen` has never failed. */
  lemma {:induction false} RegistryIsStreamsIff(run: seq<State>, steps: seq<Step>, n: nat)
    requires IsRun(run, steps) && n < |run| && run[n].threads == map[]
    ensures (forall fd, pid :: Entry(fd, pid) in run[n].list ==> IsIn(run[n], fd, InUse)) <==> !FdopenFailed(steps, n)
    ensures forall fd :: IsIn(run[n], fd, InUse) ==> Entry(fd, run[n].recorded[fd].pid) in run[n].list
  {
    hide FdopenFailed;
    hide Enabled;
    hide Act;
    EveryState(run, steps, n);
    RegistryIsRecorded(run, steps, n);
    LostIffFailed(run, steps, n);
    var s := run[n];
    hide IsRun;
    hide ClaimsOk;
    hide RegistryOk;
    forall fd | fd in s.recorded
      ensures IsIn(s, fd, InUse) || IsIn(s, fd, Lost)
    {
      assert s.recorded[fd].place.OnItsWay? ==> !IsIn(s, fd, OnItsWay(s.recorded[fd].place.tid));
    }
    if HasLost(s) {
      var fd :| IsIn(s, fd, Lost);
      assert Entry(fd, s.recorded[fd].pid) in s.list;
    }
  }

  // ----- the child -----

  /**
  The table on which the child of `v_secure_popen` runs its list: `close(dir)`, `close(keep)`,
  `dup2(give, dir)`, `close(give)`, then the loop over the registry.
  */
  function ChildTable(t: FdTable, dir: nat, keep: nat, give: nat, list: seq<Entry>): FdTable
  {
    CloseCall(Dup2Call(CloseCall(CloseCall(t, dir), keep), give, dir).0, give) - RegisteredFds(list)
  }

  method EnterChild(registry: Registry, t: FdTable, dir: nat, keep: nat, give: nat) returns (r: FdTable)
    requires registry.Valid()
    ensures r == ChildTable(t, dir, keep, give, registry.List())
  {
    r := CloseCall(t, dir);
    r := CloseCall(r, keep);
    r := Dup2Call(r, give, dir).0;
    r := CloseCall(r, give);
    r := registry.CloseInChild(r);
  }

  /** The table of every descriptor that is open in a state of the threads. */
  ghost predicate TableOf(s: State, t: FdTable) { t.Keys == s.open }

  /**
  In every state of every interleaving, with `dir`, 0 or 1, an open descriptor that is neither
  registered nor an end of a pipe in the making: the child of the thread that is about to fork
  has the caller's table with `dir` its own end of the pipe, less both ends and every registered
  descriptor. So it holds no stream of another call; but it does hold both ends of the pipes
  that other threads have made and not yet registered.
  */
  lemma {:induction false} ChildHolds(run: seq<State>, steps: seq<Step>, n: nat, tid: nat, table: FdTable, dir: nat)
    requires IsRun(run, steps) && n < |run| && TableOf(run[n], table)
    requires tid in run[n].threads && run[n].threads[tid].Forking?
    requires dir in table && !Claimed(run[n], dir)
    ensures var s, pc := run[n], run[n].threads[tid];
            var child := ChildTable(table, dir, pc.keep, pc.give, s.list);
            && pc.give in table && dir in child
            && child == (table - {pc.keep, pc.give} - s.recorded.Keys)[dir := table[pc.give]]
            && forall u :: u in s.threads && u != tid ==> InFlight(s.threads[u]) <= child.Keys
  {
    EveryState(run, steps, n);
    var s, pc := run[n], run[n].threads[tid];
    RegisteredIsRecorded(s, tid);
    ForkingEnds(s, tid, dir);
    var child := ChildTable(table, dir, pc.keep, pc.give, s.list);
    assert child == (table - {pc.keep, pc.give} - s.recorded.Keys)[dir := table[pc.give]];
    forall u | u in s.threads && u != tid
      ensures InFlight(s.threads[u]) <= child.Keys
    {
      OthersEnds(s, tid, u);
    }
  }

  lemma {:induction false} RegisteredIsRecorded(s: State, tid: nat)
    requires Inv(s) && tid in s.threads && s.threads[tid].Forking?
    ensures RegisteredFds(s.list) == s.recorded.Keys
  {
    hide ClaimsOk;
    hide HandedOk;
    forall e
      ensures !BeingClosed(s, e)
    {
      OnlyHolderCloses(s, tid, e);
    }
    forall fd | fd in s.recorded
      ensures fd in RegisteredFds(s.list)
    {
      var e := Entry(fd, s.recorded[fd].pid);
      assert Recorded(s, e);
      assert e in s.list;
    }
    assert forall e :: e in s.list ==> e.fd in s.recorded;
  }

  lemma {:induction false} ForkingEnds(s: State, tid: nat, dir: nat)
    requires ClaimsOk(s) && tid in s.threads && s.threads[tid].Forking? && !Claimed(s, dir)
    ensures var pc := s.threads[tid];
            && pc.keep != pc.give && dir != pc.keep && dir != pc.give && dir !in s.recorded
            && pc.keep in s.open && pc.give in s.open
  {
    var pc := s.threads[tid];
    assert TwoEnds(pc);
    assert pc.keep in InFlight(pc) && pc.give in InFlight(pc);
  }

  lemma {:induction false} OthersEnds(s: State, tid: nat, u: nat)
    requires ClaimsOk(s) && tid in s.threads && s.threads[tid].Forking? && u in s.threads && u != tid
    ensures var pc := s.threads[tid];
            InFlight(s.threads[u]) <= s.open - {pc.keep, pc.give} - s.recorded.Keys
  {
    var pc := s.threads[tid];
    assert InFlight(pc) == {pc.keep, pc.give} && InFlight(s.threads[u]) !! InFlight(pc);
  }
}

/** Add and remove events of the polled tables, and what they add up to over whole runs. */
module TableEvents {

  /** The DHCPv4 client table, and the two tables of the MoCA handler. */
  datatype Table = Clients | AssociatedDevices | MeshEntries

  datatype Event = Added(table: Table) | Removed(table: Table, index: int)

  /** What a getter reported: a number of entries, or failure. */
  datatype Reading = Unavailable | Count(n: int)

  // ----- one poll -----

  /** One event per entry of difference; removals carry the indices from the new count up to the old one. */
  function Changes(t: Table, saved: int, now: int): (es: seq<Event>)
    decreases if saved > now then saved - now else now - saved
  {
    if saved > now then [Removed(t, now)] + Changes(t, saved, now + 1)
    else if saved < now then [Added(t)] + Changes(t, saved, now - 1)
    else []
  }

  lemma {:induction false} RemovalsAre(t: Table, saved: int, now: int)
    requires saved >= now
    ensures |Changes(t, saved, now)| == saved - now
    ensures forall i :: 0 <= i < saved - now ==> Changes(t, saved, now)[i] == Removed(t, now + i)
    decreases saved - now
  {
    if saved > now {
      RemovalsAre(t, saved, now + 1);
    }
  }

  lemma {:induction false} AdditionsAre(t: Table, saved: int, now: int)
    requires saved <= now
    ensures |Changes(t, saved, now)| == now - saved
    ensures forall i :: 0 <= i < now - saved ==> Changes(t, saved, now)[i] == Added(t)
    decreases now - saved
  {
    if saved < now {
      AdditionsAre(t, saved, now - 1);
    }
  }

  /** Additions minus removals of a table in a log. */
  function Balance(log: seq<Event>, t: Table): int
  {
    if log == [] then 0
    else
      Balance(log[..|log| - 1], t) +
      match log[|log| - 1]
      case Added(u) => if u == t then 1 else 0
      case Removed(u, _) => if u == t then -1 else 0
  }

  lemma {:induction false} BalanceSplit(a: seq<Event>, b: seq<Event>, t: Table)
    ensures Balance(a + b, t) == Balance(a, t) + Balance(b, t)
    decreases |b|
  {
    if b == [] {
      assert a + b == a;
    } else {
      var n := |b| - 1;
      assert (a + b)[..|a + b| - 1] == a + b[..n] && (a + b)[|a + b| - 1] == b[n];
      BalanceSplit(a, b[..n], t);
    }
  }

  lemma {:induction false} BalanceOfChanges(t: Table, u: Table, saved: int, now: int)
    ensures Balance(Changes(t, saved, now), u) == if t == u then now - saved else 0
    decreases if saved > now then saved - now else now - saved
  {
    if saved > now {
      BalanceOfChanges(t, u, saved, now + 1);
      BalanceSplit([Removed(t, now)], Changes(t, saved, now + 1), u);
      assert [Removed(t, now)][..0] == [] && Balance([], u) == 0;
    } else if saved < now {
      BalanceOfChanges(t, u, saved, now - 1);
      BalanceSplit([Added(t)], Changes(t, saved, now - 1), u);
      assert [Added(t)][..0] == [] && Balance([], u) == 0;
    }
  }

  /**
  The log after a poll of one table that had `saved` entries: with a count of `n`, the removals
  of indices n to saved - 1 in order, or n - saved additions; without one, nothing new.
  */
  ghost predicate Reported(t: Table, saved: int, r: Reading, before: seq<Event>, after: seq<Event>)
  {
    match r
    case Unavailable => after == before
    case Count(n) =>
      && before <= after && |after| - |before| == (if n < saved then saved - n else n - saved)
      && (n < saved ==> forall i :: 0 <= i < saved - n ==> after[|before|..][i] == Removed(t, n + i))
      && (n >= saved ==> forall i :: 0 <= i < n - saved ==> after[|before|..][i] == Added(t))
  }

  lemma {:induction false} ChangesAreReported(t: Table, saved: int, n: int, before: seq<Event>)
    ensures Reported(t, saved, Count(n), before, before + Changes(t, saved, n))
  {
    assert (before + Changes(t, saved, n))[|before|..] == Changes(t, saved, n);
    if n < saved {
      RemovalsAre(t, saved, n);
    } else {
      AdditionsAre(t, saved, n);
    }
  }

  // ----- runs -----

  /** A handler: the saved count of each of its tables, and the events delivered since the last reset. */
  datatype State = State(saved: map<Table, int>, log: seq<Event>)

  datatype Op = Reset | Poll(readings: seq<(Table, Reading)>)

  function Zeroed(m: map<Table, int>): map<Table, int> { map t | t in m :: 0 }

  function PollOne(s: State, t: Table, r: Reading): State
  {
    if r.Unavailable? || t !in s.saved then s
    else State(s.saved[t := r.n], s.log + Changes(t, s.saved[t], r.n))
  }

  /** A poll saves the count it reads, and reports the difference; a getter that fails changes nothing. */
  lemma {:induction false} PollReports(s: State, t: Table, r: Reading)
    requires t in s.saved
    ensures var s' := PollOne(s, t, r);
            && s'.saved == (if r.Count? then s.saved[t := r.n] else s.saved)
            && Reported(t, s.saved[t], r, s.log, s'.log)
  {
    if r.Count? {
      ChangesAreReported(t, s.saved[t], r.n, s.log);
    }
  }

  function PollAll(s: State, rs: seq<(Table, Reading)>): State
    decreases |rs|
  {
    if rs == [] then s else PollAll(PollOne(s, rs[0].0, rs[0].1), rs[1..])
  }

  function Apply(s: State, op: Op): State
  {
    match op
    case Reset => State(Zeroed(s.saved), [])
    case Poll(rs) => PollAll(s, rs)
  }

  function Run(s: State, ops: seq<Op>): State
    decreases |ops|
  {
    if ops == [] then s else Run(Apply(s, ops[0]), ops[1..])
  }

  ghost predicate Conserved(s: State)
  {
    forall t :: t in s.saved ==> Balance(s.log, t) == s.saved[t]
  }

  lemma {:induction false} PollKeeps(s: State, t: Table, r: Reading)
    requires Conserved(s)
    ensures Conserved(PollOne(s, t, r))
  {
    if r.Count? && t in s.saved {
      forall u | u in s.saved
        ensures Balance(PollOne(s, t, r).log, u) == PollOne(s, t, r).saved[u]
      {
        BalanceSplit(s.log, Changes(t, s.saved[t], r.n), u);
        BalanceOfChanges(t, u, s.saved[t], r.n);
      }
    }
  }

  lemma {:induction false} PollAllKeeps(s: State, rs: seq<(Table, Reading)>)
    requires Conserved(s)
    ensures Conserved(PollAll(s, rs))
    decreases |rs|
  {
    if rs != [] {
      PollKeeps(s, rs[0].0, rs[0].1);
      PollAllKeeps(PollOne(s, rs[0].0, rs[0].1), rs[1..]);
    }
  }

  /**
  Across any polls and resets, additions minus removals since the last reset equal the saved count,
  table by table.
  */
  lemma {:induction false} EventsConserved(s: State, ops: seq<Op>)
    requires Conserved(s)
    ensures Conserved(Run(s, ops))
    decreases |ops|
  {
    if ops != [] {
      match ops[0] {
        case Reset =>
          assert forall t :: Balance([], t) == 0;
        case Poll(rs) => PollAllKeeps(s, rs);
      }
      EventsConserved(Apply(s, ops[0]), ops[1..]);
    }
  }

  /** A poll of one table leaves the others and their events alone. */
  lemma TablesIndependent(s: State, t: Table, r: Reading, u: Table)
    requires u != t
    ensures (u in PollOne(s, t, r).saved <==> u in s.saved)
    ensures u in s.saved ==> PollOne(s, t, r).saved[u] == s.saved[u]
    ensures Balance(PollOne(s, t, r).log, u) == Balance(s.log, u)
  {
    if r.Count? && t in s.saved {
      BalanceSplit(s.log, Changes(t, s.saved[t], r.n), u);
      BalanceOfChanges(t, u, s.saved[t], r.n);
    }
  }

  // ----- the handlers -----

  /** The two loops of `checkForUpdates` for one table. */
  method SendChanges(t: Table, saved: int, count: int, before: seq<Event>) returns (log: seq<Event>)
    ensures log == before + Changes(t, saved, count)
    ensures Reported(t, saved, Count(count), before, log)
  {
    ChangesAreReported(t, saved, count, before);
    log := before;
    var now := count;
    while saved > now
      invariant saved < count ==> now == count
      invariant saved >= count ==> count <= now <= saved
      invariant before + Changes(t, saved, count) == log + Changes(t, saved, now)
      decreases saved - now
    {
      assert log + ([Removed(t, now)] + Changes(t, saved, now + 1)) ==
        log + [Removed(t, now)] + Changes(t, saved, now + 1);
      log := log + [Removed(t, now)];
      now := now + 1;
    }
    while saved < now
      invariant saved <= now
      invariant before + Changes(t, saved, count) == log + Changes(t, saved, now)
      decreases now - saved
    {
      assert log + ([Added(t)] + Changes(t, saved, now - 1)) == log + [Added(t)] + Changes(t, saved, now - 1);
      log := log + [Added(t)];
      now := now - 1;
    }
    assert Changes(t, saved, now) == [] && log + [] == log;
  }

  class Dhcpv4Handler {
    var clients: int
    var log: seq<Event>

    ghost function Abstract(): State
      reads this
    {
      State(map[Clients := clients], log)
    }

    constructor ()
      ensures Abstract() == State(map[Clients := 0], []) && Conserved(Abstract())
    {
      clients, log := 0, [];
    }

    method ResetCounts()
      modifies this
      ensures Abstract() == Apply(old(Abstract()), Reset)
      ensures clients == 0 && log == []
    {
      clients, log := 0, [];
      assert Abstract().saved == Zeroed(old(Abstract()).saved);
    }

    method CheckForUpdates(r: Reading)
      modifies this
      ensures Abstract() == Apply(old(Abstract()), Poll([(Clients, r)]))
      ensures clients == if r.Count? then r.n else old(clients)
      ensures Reported(Clients, old(clients), r, old(log), log)
    {
      ghost var rs := [(Clients, r)];
      assert rs[1..] == [];
      if r.Count? {
        log := SendChanges(Clients, clients, r.n, log);
        clients := r.n;
      }
      ghost var s0 := old(Abstract());
      assert Abstract().saved == PollOne(s0, Clients, r).saved;
      assert PollAll(s0, rs) == PollAll(PollOne(s0, Clients, r), []);
    }
  }

  class MocaHandler {
    const devices: array<int>
    var mesh: int
    var log: seq<Event>

    ghost predicate Valid() { devices.Length == 10 }

    ghost function Abstract(): State
      requires Valid()
      reads this, devices
    {
      State(map[AssociatedDevices := devices[1], MeshEntries := mesh], log)
    }

    constructor ()
      ensures Valid() && fresh(devices) && Abstract() == State(map[AssociatedDevices := 0, MeshEntries := 0], [])
    {
      devices := new int[10](i => 0);
      mesh, log := 0, [];
    }

    method ResetCounts()
      requires Valid()
      modifies this, devices
      ensures Valid() && Abstract() == Apply(old(Abstract()), Reset)
      ensures (forall i :: 0 <= i < 10 ==> devices[i] == 0) && mesh == 0 && log == []
    {
      forall i | 0 <= i < devices.Length {
        devices[i] := 0;
      }
      mesh, log := 0, [];
      assert Abstract().saved == Zeroed(old(Abstract()).saved);
    }

    /** Both tables in turn; a getter that fails leaves its table as it was. */
    method CheckForUpdates(d: Reading, m: Reading)
      requires Valid()
      modifies this, devices
      ensures Valid() && Abstract() == Apply(old(Abstract()), Poll([(AssociatedDevices, d), (MeshEntries, m)]))
      ensures devices[1] == if d.Count? then d.n else old(devices[1])
      ensures forall i :: 0 <= i < 10 && i != 1 ==> devices[i] == old(devices[i])
      ensures mesh == if m.Count? then m.n else old(mesh)
      ensures exists between ::
                && Reported(AssociatedDevices, old(devices[1]), d, old(log), between)
                && Reported(MeshEntries, old(mesh), m, between, log)
    {
      ghost var rs := [(AssociatedDevices, d), (MeshEntries, m)];
      assert rs[1..] == [(MeshEntries, m)] && rs[1..][1..] == [];
      ghost var s0 := Abstract();
      if d.Count? {
        log := SendChanges(AssociatedDevices, devices[1], d.n, log);
        devices[1] := d.n;
      }
      ghost var s1, between := Abstract(), log;
      assert Reported(AssociatedDevices, old(devices[1]), d, old(log), between);
      assert s1.saved == PollOne(s0, AssociatedDevices, d).saved;
      if m.Count? {
        log := SendChanges(MeshEntries, mesh, m.n, log);
        mesh := m.n;
      }
      assert Reported(MeshEntries, old(mesh), m, between, log);
      assert Abstract().saved == PollOne(s1, MeshEntries, m).saved;
      assert PollAll(s0, rs) == PollAll(s1, [(MeshEntries, m)]);
      assert PollAll(s1, [(MeshEntries, m)]) == PollAll(PollOne(s1, MeshEntries, m), []);
    }
  }
}

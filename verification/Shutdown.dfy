/**
Graceful shutdown: signal handlers post a semaphore, shutdown threads wait on it and then
run `exit_gracefully`, which tests a flag, tries a mutex, sets the flag and tears down. The
repository starts one such thread; the model allows any number, to say what depends on that.
*/
module Shutdown {
  import opened Mutex

  /** The tear-down actions in their order. */
  const TEARDOWN: seq<string> := [
    "t2_uninit", "stop_parodus_recv_wait", "hostIf_HttpServerStop", "updateHandler::stop", "XBSStore::stop",
    "fclose logfile", "destroy paramMgrhash", "hostIf_IARM_IF_Stop", "rdk_otlp_shutdown", "quit main loop",
    "HttpServerStop"
  ]

  datatype Pc =
    | Waiting             // in sem_wait
    | Woken               // before the test of the flag
    | Passed              // flag seen clear, before the trylock
    | Locked              // mutex taken, flag not yet set
    | TearingDown(k: nat) // `k` actions done
    | Finished

  datatype Done = Done(tid: nat, action: nat)

  /** `inHandler` counts handlers that have recorded their signal and not yet posted. */
  datatype State = State(
    threads: map<nat, Pc>, sem: nat, inHandler: nat, delivered: seq<int>, signal: int,
    posts: nat, waits: nat, flag: bool, mutex: Holder, log: seq<Done>)

  datatype Action =
    | Deliver(sig: int) | Post
    | Interrupted(t: nat) | Wake(t: nat) | TestFlag(t: nat) | TryLock(t: nat)
    | SetFlag(t: nat) | Tear(t: nat) | Unlock(t: nat)

  function AllWaiting(n: nat): (m: map<nat, Pc>)
    ensures forall t :: t in m <==> 0 <= t < n
    ensures forall t :: t in m ==> m[t] == Waiting
  {
    if n == 0 then map[] else AllWaiting(n - 1)[n - 1 := Waiting]
  }

  function Start(n: nat): State
  {
    State(AllWaiting(n), 0, 0, [], 0, 0, 0, false, Free, [])
  }

  predicate At(s: State, t: nat, pc: Pc) { t in s.threads && s.threads[t] == pc }

  predicate Enabled(s: State, a: Action)
  {
    match a
    case Deliver(_) => true
    case Post => s.inHandler > 0
    case Interrupted(t) => At(s, t, Waiting)
    case Wake(t) => At(s, t, Waiting) && s.sem > 0
    case TestFlag(t) => At(s, t, Woken)
    case TryLock(t) => At(s, t, Passed)
    case SetFlag(t) => At(s, t, Locked)
    case Tear(t) => t in s.threads && s.threads[t].TearingDown? && s.threads[t].k < |TEARDOWN|
    case Unlock(t) => At(s, t, TearingDown(|TEARDOWN|))
  }

  function Move(s: State, t: nat, pc: Pc): State { s.(threads := s.threads[t := pc]) }

  function Act(s: State, a: Action): State
    requires Enabled(s, a)
  {
    match a
    case Deliver(sig) => s.(signal := sig, delivered := s.delivered + [sig], inHandler := s.inHandler + 1)
    case Post => s.(inHandler := s.inHandler - 1, sem := s.sem + 1, posts := s.posts + 1)
    case Interrupted(_) => s
    case Wake(t) => Move(s, t, Woken).(sem := s.sem - 1, waits := s.waits + 1)
    case TestFlag(t) => Move(s, t, if s.flag then Finished else Passed)
    case TryLock(t) => if s.mutex == Free then Move(s, t, Locked).(mutex := HeldBy(t)) else Move(s, t, Finished)
    case SetFlag(t) => Move(s, t, TearingDown(0)).(flag := true)
    case Tear(t) => Move(s, t, TearingDown(s.threads[t].k + 1)).(log := s.log + [Done(t, s.threads[t].k)])
    case Unlock(t) => Move(s, t, Finished).(mutex := Free)
  }

  /** A run: every step enabled where it is taken. */
  ghost predicate Runs(s: State, acts: seq<Action>, s': State)
    decreases |acts|
  {
    if acts == [] then s' == s else Enabled(s, acts[0]) && Runs(Act(s, acts[0]), acts[1..], s')
  }

  ghost predicate Reachable(n: nat, s: State) { exists acts :: Runs(Start(n), acts, s) }

  // ----- with any number of threads -----

  predicate InCritical(pc: Pc) { pc.Locked? || pc.TearingDown? }

  /** The semaphore holds what was posted and not yet waited for, and nobody is past it without a wait. */
  ghost predicate Counted(s: State)
  {
    && s.sem + s.waits == s.posts && s.posts + s.inHandler == |s.delivered|
    && (forall t :: t in s.threads && s.threads[t] != Waiting ==> s.waits > 0)
    && (s.log != [] ==> s.waits > 0)
    && (s.delivered != [] ==> s.signal == s.delivered[|s.delivered| - 1])
  }

  /** The mutex guards the tear-down. */
  ghost predicate Guarded(s: State)
  {
    && (forall t :: t in s.threads && InCritical(s.threads[t]) ==> s.mutex == HeldBy(t))
    && (s.mutex.HeldBy? ==> s.mutex.tid in s.threads && InCritical(s.threads[s.mutex.tid]))
    && (forall t :: t in s.threads && s.threads[t].TearingDown? ==> s.flag)
  }

  ghost predicate Inv(s: State) { Counted(s) && Guarded(s) }

  lemma {:induction false} CountedStep(s: State, a: Action)
    requires Counted(s) && Enabled(s, a)
    ensures Counted(Act(s, a))
  {
  }

  lemma {:induction false} GuardedStep(s: State, a: Action)
    requires Guarded(s) && Enabled(s, a)
    ensures Guarded(Act(s, a))
  {
  }

  lemma {:induction false} InvRuns(s: State, acts: seq<Action>, s': State)
    requires Inv(s) && Runs(s, acts, s')
    ensures Inv(s')
    decreases |acts|
  {
    if acts != [] {
      CountedStep(s, acts[0]);
      GuardedStep(s, acts[0]);
      InvRuns(Act(s, acts[0]), acts[1..], s');
    }
  }

  /**
  In every reachable state, whatever the number of threads: the semaphore counts posts minus
  completed waits; an action of the tear-down means that a signal was delivered and posted;
  and whoever is tearing down holds the mutex, alone.
  */
  lemma {:induction false} ShutdownIsSafe(n: nat, s: State)
    requires Reachable(n, s)
    ensures s.sem == s.posts - s.waits && s.posts <= |s.delivered|
    ensures s.log != [] ==> s.delivered != [] && s.posts > 0
    ensures forall t, u :: t in s.threads && u in s.threads ==>
              InCritical(s.threads[t]) && InCritical(s.threads[u]) ==> t == u
    ensures forall t :: t in s.threads && s.threads[t].TearingDown? ==> s.mutex == HeldBy(t) && s.flag
  {
    var acts :| Runs(Start(n), acts, s);
    assert Counted(Start(n)) && Guarded(Start(n));
    InvRuns(Start(n), acts, s);
  }

  // ----- with one thread -----

  function InOrder(k: nat): (r: seq<Done>)
    ensures |r| == k && forall i :: 0 <= i < k ==> r[i] == Done(0, i)
  {
    seq(k, (i: nat) => Done(0, i))
  }

  /** The actions done are the first ones, in order; all of them once the thread has torn down. */
  ghost predicate InvOne(s: State)
  {
    && s.threads.Keys == {0}
    && match s.threads[0] {
         case Waiting => s.log == [] && !s.flag && s.mutex == Free && s.waits == 0
         case Woken => s.log == [] && !s.flag && s.mutex == Free
         case Passed => s.log == [] && !s.flag && s.mutex == Free
         case Locked => s.log == [] && !s.flag && s.mutex == HeldBy(0)
         case TearingDown(k) => k <= |TEARDOWN| && s.log == InOrder(k) && s.flag && s.mutex == HeldBy(0)
         case Finished => s.log == InOrder(|TEARDOWN|) && s.flag && s.mutex == Free
       }
  }

  lemma {:induction false} InvOneRuns(s: State, acts: seq<Action>, s': State)
    requires InvOne(s) && Runs(s, acts, s')
    ensures InvOne(s')
    decreases |acts|
  {
    if acts != [] {
      InvOneStep(s, acts[0]);
      InvOneRuns(Act(s, acts[0]), acts[1..], s');
    }
  }

  lemma {:induction false} InvOneStep(s: State, a: Action)
    requires InvOne(s) && Enabled(s, a)
    ensures InvOne(Act(s, a))
  {
    var s' := Act(s, a);
    assert s'.threads.Keys == {0};
    if a.Tear? {
      assert InOrder(s.threads[0].k) + [Done(0, s.threads[0].k)] == InOrder(s.threads[0].k + 1);
    }
    if a.SetFlag? {
      assert InOrder(0) == [];
    }
  }

  /** The names of the actions done. */
  function Names(log: seq<Done>): seq<string>
  {
    seq(|log|, i requires 0 <= i < |log| => if log[i].action < |TEARDOWN| then TEARDOWN[log[i].action] else "")
  }

  /** With the one shutdown thread: a prefix of the actions, each once and in order, and the mutex free at the end. */
  lemma {:induction false} OneThreadTearsDownOnce(s: State)
    requires Reachable(1, s)
    ensures |s.log| <= |TEARDOWN| && s.log == InOrder(|s.log|)
    ensures At(s, 0, Finished) ==> s.mutex == Free && |s.log| == |TEARDOWN|
    ensures Names(s.log) <= [
              "t2_uninit", "stop_parodus_recv_wait", "hostIf_HttpServerStop", "updateHandler::stop", "XBSStore::stop",
              "fclose logfile", "destroy paramMgrhash", "hostIf_IARM_IF_Stop", "rdk_otlp_shutdown", "quit main loop",
              "HttpServerStop"]
  {
    var acts :| Runs(Start(1), acts, s);
    assert Start(1).threads.Keys == {0};
    InvOneRuns(Start(1), acts, s);
    assert forall i :: 0 <= i < |s.log| ==> Names(s.log)[i] == TEARDOWN[i];
  }

  // ----- the flag alone is not enough -----

  lemma {:induction false} RunsThen(s: State, a: seq<Action>, m: State, b: seq<Action>, s': State)
    requires Runs(s, a, m) && Runs(m, b, s')
    ensures Runs(s, a + b, s')
    decreases |a|
  {
    if a == [] {
      assert a + b == b;
    } else {
      assert (a + b)[0] == a[0] && (a + b)[1..] == a[1..] + b;
      RunsThen(Act(s, a[0]), a[1..], m, b, s');
    }
  }

  lemma {:induction false} RunsOne(s: State, acts: seq<Action>, m: State, a: Action)
    requires Runs(s, acts, m) && Enabled(m, a)
    ensures Runs(s, acts + [a], Act(m, a))
  {
    assert [a][1..] == [];
    RunsThen(s, acts, m, [a], Act(m, a));
  }

  /** A thread that is tearing down can go on to the end. */
  lemma {:induction false} TearDownCompletes(s: State, acts: seq<Action>, m: State, t: nat)
    returns (acts': seq<Action>, m': State)
    requires Runs(s, acts, m) && t in m.threads && m.threads[t].TearingDown? && m.threads[t].k <= |TEARDOWN|
    ensures Runs(s, acts', m') && m'.threads == m.threads[t := TearingDown(|TEARDOWN|)] && m'.mutex == m.mutex
    ensures |m'.log| == |m.log| + |TEARDOWN| - m.threads[t].k && m.log <= m'.log
    ensures m.threads[t].k < |TEARDOWN| ==> m'.log[|m.log|] == Done(t, m.threads[t].k)
    decreases |TEARDOWN| - m.threads[t].k
  {
    hide Runs;
    if m.threads[t].k == |TEARDOWN| {
      acts', m' := acts, m;
      assert m.threads[t := TearingDown(|TEARDOWN|)] == m.threads;
    } else {
      RunsOne(s, acts, m, Tear(t));
      var next := Act(m, Tear(t));
      acts', m' := TearDownCompletes(s, acts + [Tear(t)], next, t);
      assert next.log[|m.log|] == Done(t, m.threads[t].k);
    }
  }

  /** One more step of a run. */
  lemma {:induction false} Advance(n: nat, acts: seq<Action>, m: State, a: Action)
    returns (acts': seq<Action>, m': State)
    requires Runs(Start(n), acts, m) && Enabled(m, a)
    ensures Runs(Start(n), acts', m') && m' == Act(m, a)
  {
    hide Runs;
    RunsOne(Start(n), acts, m, a);
    acts', m' := acts + [a], Act(m, a);
  }

  /** Two signals wake two threads, and both see the flag clear. */
  lemma {:induction false} BothPass(n: nat) returns (acts: seq<Action>, s: State)
    requires n >= 2
    ensures Runs(Start(n), acts, s)
    ensures At(s, 0, Passed) && At(s, 1, Passed) && s.mutex == Free && s.log == []
  {
    hide Runs;
    RunsNone(Start(n));
    acts, s := [], Start(n);
    acts, s := Advance(n, acts, s, Deliver(15));
    acts, s := Advance(n, acts, s, Post);
    acts, s := Advance(n, acts, s, Deliver(15));
    acts, s := Advance(n, acts, s, Post);
    acts, s := Advance(n, acts, s, Wake(0));
    acts, s := Advance(n, acts, s, Wake(1));
    acts, s := Advance(n, acts, s, TestFlag(0));
    acts, s := Advance(n, acts, s, TestFlag(1));
  }

  /** A thread past the flag takes the free mutex and starts to tear down. */
  lemma {:induction false} Begins(n: nat, acts: seq<Action>, m: State, t: nat) returns (acts': seq<Action>, m': State)
    requires Runs(Start(n), acts, m) && At(m, t, Passed) && m.mutex == Free
    ensures Runs(Start(n), acts', m') && m'.threads == m.threads[t := TearingDown(0)] && m'.log == m.log
  {
    hide Runs;
    acts', m' := Advance(n, acts, m, TryLock(t));
    acts', m' := Advance(n, acts', m', SetFlag(t));
  }

  /**
  With two threads or more, both can see the flag clear before either takes the mutex, and
  then the second tears down again once the first has unlocked.
  */
  lemma {:induction false} TwoThreadsTearDownTwice(n: nat) returns (s: State)
    requires n >= 2
    ensures Reachable(n, s) && |s.log| > |TEARDOWN| && s.log[0] == Done(0, 0) && s.log[|TEARDOWN|] == Done(1, 0)
  {
    hide Runs;
    var acts;
    acts, s := BothPass(n);
    acts, s := Begins(n, acts, s, 0);
    acts, s := TearDownCompletes(Start(n), acts, s, 0);
    acts, s := Advance(n, acts, s, Unlock(0));
    acts, s := Begins(n, acts, s, 1);
    acts, s := Advance(n, acts, s, Tear(1));
    assert Runs(Start(n), acts, s);
  }

  lemma {:induction false} NoThreadsDoNothing(s: State, acts: seq<Action>, s': State)
    requires s.threads == map[] && s.log == [] && Runs(s, acts, s')
    ensures s'.log == []
    decreases |acts|
  {
    if acts != [] {
      NoThreadsDoNothing(Act(s, acts[0]), acts[1..], s');
    }
  }

  /** At most one tear-down in every run holds for exactly the number of threads the program starts: at most one. */
  lemma {:induction false} TearsDownOnceIffOneThread(n: nat)
    ensures (forall s :: Reachable(n, s) ==> |s.log| <= |TEARDOWN|) <==> n <= 1
  {
    if n >= 2 {
      var s := TwoThreadsTearDownTwice(n);
    }
    forall s | Reachable(n, s) && n <= 1
      ensures |s.log| <= |TEARDOWN|
    {
      if n == 1 {
        OneThreadTearsDownOnce(s);
      } else {
        var acts :| Runs(Start(n), acts, s);
        assert Start(0).threads == map[];
        NoThreadsDoNothing(Start(n), acts, s);
      }
    }
  }

  lemma RunsNone(s: State)
    ensures Runs(s, [], s)
  {
  }
}

/**
When the flat interpreter agrees with the structured evaluator: same programs in the same
order with the same descriptors, same final status, and the caller's descriptor table restored.
*/
module ShellRefinement {
  import opened ShellSyntax
  import opened Descriptors
  import opened ShellGrammar
  import opened ShellWorld
  import opened ShellExecutor
  import opened ShellReference
  import opened ShellControl
  import opened ShellWiring
  import Redirects

  // ----- what a stage starts, whatever its redirects -----

  /** The caller's redirects of a stage, on the table prepared for it. */
  function Applied(o: Oracle, task: Task, base: FdTable, st: State): (FdTable, bool)
    requires 0 in base && 1 in base
  {
    Redirects.Fold(Prepared(base, st.input, task.token, st.world.pipes), task.ops, o.opens(st.world.trace))
  }

  /** The descriptors that a stage in this place must not see. */
  function Kept(task: Task, base: FdTable, st: State): set<nat>
  {
    HiddenAt(base.Keys, st.input.FromPipe?, task.token)
  }

  /** The loop stands where the evaluator does, with the caller's table holding what is pending. */
  ghost predicate Follows(s: ExecState, base: FdTable, st: State)
  {
    Attached(s, base, st.input) && s.world == st.world && s.skip == 0
  }

  lemma {:induction false} CloseAllIs(t: FdTable, a: int, b: int, c: int)
    ensures CloseAll(t, [a, b, c]) == CloseCall(CloseCall(CloseCall(t, a), b), c)
  {
    assert [a, b, c][1..] == [b, c] && [b, c][1..] == [c] && [c][1..] == [];
    var t1, t2 := CloseCall(t, a), CloseCall(CloseCall(t, a), b);
    assert CloseAll(t, [a, b, c]) == CloseAll(t1, [b, c]) == CloseAll(t2, [c]) == CloseCall(t2, c);
  }

  lemma {:induction false} CloseAllHidden(t: FdTable, task: Task, base: FdTable, st: State, s: ExecState)
    requires Follows(s, base, st)
    ensures CloseAll(t, CloseList(Wire(s, task.token))) == t - Kept(task, base, st)
  {
    hide Spare;
    WireMeaning(s, base, st.input, task.token);
    hide Wire;
    var w := Wire(s, task.token);
    CloseAllIs(t, w.oldStdin, w.oldStdout, w.pipefd);
    assert CloseCall(CloseCall(CloseCall(t, w.oldStdin), w.oldStdout), w.pipefd) == t - Kept(task, base, st);
  }

  lemma {:induction false} StageRuns(o: Oracle, task: Task, s: ExecState, base: FdTable, st: State)
    requires Follows(s, base, st)
    ensures var t, w := Prepared(base, st.input, task.token, st.world.pipes), PipeMade(st.world, task.token);
            var (ret, w') := RunTask(o, task, t, CloseList(Wire(s, task.token)), w);
            RunStage(o, task, s).ret == ret && RunStage(o, task, s).world == w'
  {
    hide RunTask;
    hide Prepared;
    hide Unwire;
    WireMeaning(s, base, st.input, task.token);
    hide Wire;
    assert s.(skip := 0) == s;
    assert s.world.(pipes := Wire(s, task.token).pipes) == PipeMade(st.world, task.token);
  }

  /**
  A program is started whether or not its redirects succeeded: on success with what they
  leave less the hidden descriptors, on failure with all that is open at that point.
  */
  lemma {:induction false} ProgramStarts(o: Oracle, task: Task, base: FdTable, st: State, s: ExecState)
    requires Follows(s, base, st) && task.sub.NoShell?
    ensures var (u, ok) := Applied(o, task, base, st);
            var fds := if ok then u - Kept(task, base, st) else u;
            var trace := st.world.trace + [Exec(Texts(task.argv), fds)];
            var s' := RunStage(o, task, s);
            s'.world == PipeMade(st.world, task.token).(trace := trace) && s'.ret == Reported(task.token, o.exit(trace))
  {
    StageRuns(o, task, s, base, st);
    var (u, ok) := Applied(o, task, base, st);
    CloseAllHidden(u, task, base, st, s);
    hide RunStage;
    hide Wire;
    hide CloseList;
    hide Prepared;
  }

  /** A subshell is run exactly when its redirects succeeded; otherwise its status is 255. */
  lemma {:induction false} SubshellStarts(o: Oracle, task: Task, base: FdTable, st: State, s: ExecState)
    requires Follows(s, base, st) && task.sub.Shell?
    ensures var (u, ok) := Applied(o, task, base, st);
            var made := PipeMade(st.world, task.token);
            var inner := RunTasks(o, Truncated(task.sub.tasks), Start(u - Kept(task, base, st), made));
            var s' := RunStage(o, task, s);
            if ok then s'.ret == inner.ret % 256 && s'.world == inner.world else s'.ret == 255 && s'.world == made
  {
    hide RunTasks;
    StageRuns(o, task, s, base, st);
    var (u, ok) := Applied(o, task, base, st);
    CloseAllHidden(u, task, base, st, s);
    hide RunStage;
    hide Wire;
    hide CloseList;
    hide Prepared;
  }

  /** A program sees the loop's own descriptors exactly when one of its redirects failed. */
  lemma {:induction false} LeaksIffFailed(o: Oracle, task: Task, base: FdTable, st: State, s: ExecState)
    requires Follows(s, base, st) && task.sub.NoShell? && PairedCloses(task.ops)
    ensures var trace := RunStage(o, task, s).world.trace;
            var hidden := Kept(task, base, st);
            && |trace| == |st.world.trace| + 1
            && (if Applied(o, task, base, st).1 then hidden !! trace[|st.world.trace|].fds.Keys
                else hidden <= trace[|st.world.trace|].fds.Keys)
  {
    hide RunStage;
    ProgramStarts(o, task, base, st, s);
    PreparedHides(base, st.input, task.token, st.world.pipes);
    var t := Prepared(base, st.input, task.token, st.world.pipes);
    assert 1 in t - Kept(task, base, st);
    FoldKeeps(t, task.ops, o.opens(st.world.trace));
  }

  // ----- the exact condition for one stage -----

  /**
  The redirects succeed as the language has it only if they do for the loop, and equally if nothing
  hidden is named.
  */
  lemma {:induction false} RedirectsAgreeIff(o: Oracle, task: Task, base: FdTable, st: State)
    requires 0 in base && 1 in base && PairedCloses(task.ops)
    ensures var (u, ok) := Applied(o, task, base, st);
            var (v, ideal) := Redirected(o, task, base, st);
            && (ideal ==> ok)
            && (Avoids(task.ops, Kept(task, base, st)) ==> ideal == ok)
            && (ideal && v == u - Kept(task, base, st) <==> ok && Avoids(task.ops, Kept(task, base, st)))
  {
    var t, hidden := Prepared(base, st.input, task.token, st.world.pipes), Kept(task, base, st);
    var opens := o.opens(st.world.trace);
    PreparedHides(base, st.input, task.token, st.world.pipes);
    HiddenIff(t, hidden, task.ops, opens);
    if Redirected(o, task, base, st).1 {
      assert (t - hidden).Items <= t.Items;
      FoldMonotone(t - hidden, t, task.ops, opens);
    }
    if Avoids(task.ops, hidden) {
      FoldHides(t, hidden, task.ops, opens);
    }
  }

  /**
  A program: the loop does as the language says if and only if its redirects succeed and
  name no hidden descriptor.
  */
  lemma {:induction false} ProgramAgreesIff(o: Oracle, task: Task, base: FdTable, st: State, s: ExecState)
    requires Follows(s, base, st) && task.sub.NoShell? && PairedCloses(task.ops)
    ensures var s', st' := RunStage(o, task, s), Stage(o, task, base, st);
            && (s'.world == st'.world <==> Applied(o, task, base, st).1 && Avoids(task.ops, Kept(task, base, st)))
            && (s'.world == st'.world ==> s'.ret == st'.ret)
  {
    hide RunStage;
    hide Redirected;
    hide Applied;
    hide Kept;
    ProgramStarts(o, task, base, st, s);
    RedirectsAgreeIff(o, task, base, st);
    var (u, ok) := Applied(o, task, base, st);
    var (v, ideal) := Redirected(o, task, base, st);
    var x, y := RunStage(o, task, s).world.trace, Stage(o, task, base, st).world.trace;
    var n := |st.world.trace|;
    assert y == StageBody(o, task, base, st).1.trace;
    assert x[n].fds == if ok then u - Kept(task, base, st) else u;
    if ideal {
      assert y[n].fds == v;
    } else {
      assert |y| == n;
    }
  }

  /**
  A subshell whose redirects name no hidden descriptor, and whose own list is run as the
  language says: so is the stage if and only if its redirects succeed and it is not one
  ended by `&` or `|` with a status other than 0.
  */
  lemma {:induction false} SubshellAgreesIff(o: Oracle, task: Task, base: FdTable, st: State, s: ExecState)
    requires Follows(s, base, st) && task.sub.Shell? && PairedCloses(task.ops) && Avoids(task.ops, Kept(task, base, st))
    requires InnerAgrees(o, task, base, st)
    ensures var s', st' := RunStage(o, task, s), Stage(o, task, base, st);
            var (status, world) := StageBody(o, task, base, st);
            && s'.world == st'.world
            && (s'.ret == st'.ret <==> Redirected(o, task, base, st).1 && (Unwaited(task.token) ==> status == 0))
  {
    hide RunStage;
    hide RunTasks;
    hide Evaluate;
    SubshellStarts(o, task, base, st, s);
    RedirectsAgreeIff(o, task, base, st);
    hide Redirected;
    hide Applied;
    hide Kept;
  }

  /** Once its redirects have succeeded, a subshell's list ends in both with one status and world. */
  ghost predicate InnerAgrees(o: Oracle, task: Task, base: FdTable, st: State)
    requires task.sub.Shell?
  {
    var (child, ok) := Redirected(o, task, base, st);
    var made := PipeMade(st.world, task.token);
    ok ==>
      var inner := RunTasks(o, Truncated(task.sub.tasks), Start(child, made));
      var e := Evaluate(o, Group(task.sub.tasks), child, Begin(made));
      inner.ret == e.ret && inner.world == e.world
  }

  // ----- the condition for a run -----

  /** Equal, or both those of a subshell whose redirects failed. */
  predicate SameStatus(a: int, b: int) { a == b || (a == 255 && b == REDIRECTION_ERROR) }

  /** Along the evaluator's run: no redirect of a stage that is reached names a descriptor hidden from it. */
  ghost predicate AvoidingStage(o: Oracle, task: Task, base: FdTable, st: State)
    decreases Depth([task]), 1
  {
    var (child, ok) := Redirected(o, task, base, st);
    && Avoids(task.ops, Kept(task, base, st))
    && (task.sub.Shell? && ok ==>
          AvoidingScript(o, Group(task.sub.tasks), child, Begin(PipeMade(st.world, task.token))))
  }

  ghost predicate AvoidingPipeline(o: Oracle, p: Pipeline, base: FdTable, st: State)
    decreases Depth(p), 2, |p|
  {
    p == [] ||
    (DepthSplit([p[0]], p[1..]);
     assert [p[0]] + p[1..] == p;
     AvoidingStage(o, p[0], base, st) && AvoidingPipeline(o, p[1..], base, Stage(o, p[0], base, st)))
  }

  ghost predicate AvoidingAndOr(o: Oracle, a: AndOr, base: FdTable, st: State)
    decreases Depth(Join(a)), 3, |a|
  {
    a == [] ||
    (var n := |a| - 1;
     DepthFirst(a);
     var left := EvalAndOr(o, a[..n], base, st);
     && AvoidingAndOr(o, a[..n], base, st)
     && (n == 0 || GoesOn(left.ret, End(a[n - 1])) ==> AvoidingPipeline(o, a[n], base, left)))
  }

  ghost predicate AvoidingScript(o: Oracle, c: Script, base: FdTable, st: State)
    decreases Depth(Flatten(c)), 4, |c|
  {
    c == [] ||
    (DepthSplit(Join(c[0]), Flatten(c[1..]));
     && AvoidingAndOr(o, c[0], base, st)
     && AvoidingScript(o, c[1..], base, Ended(c[0], EvalAndOr(o, c[0], base, st))))
  }

  /** The parser's limits: at most 32 tasks and paired closes, at every level of nesting. */
  ghost predicate Within(tasks: seq<Task>)
    decreases tasks
  {
    |tasks| <= MAX_NUM_CMDS && forall t :: t in tasks ==> WithinTask(t)
  }

  ghost predicate WithinTask(t: Task)
    decreases t
  {
    PairedCloses(t.ops) && (t.sub.Shell? ==> Within(t.sub.tasks))
  }

  ghost predicate AllWithin(tasks: seq<Task>) { forall t :: t in tasks ==> WithinTask(t) }

  // ----- stage, pipeline, AND-OR list, script -----

  /** As `InnerAgrees`, with the status only if it is read, and up to failed redirects. */
  ghost predicate InnerFollows(o: Oracle, task: Task, base: FdTable, st: State, read: bool)
    requires task.sub.Shell?
  {
    var (child, ok) := Redirected(o, task, base, st);
    var made := PipeMade(st.world, task.token);
    ok ==>
      var inner := RunTasks(o, Truncated(task.sub.tasks), Start(child, made));
      var e := Evaluate(o, Group(task.sub.tasks), child, Begin(made));
      inner.world == e.world && (read ==> SameStatus(inner.ret, e.ret))
  }

  lemma SameStatusByte(a: int, b: int)
    requires SameStatus(a, b)
    ensures SameStatus(a % 256, b % 256) && (b % 256 == 0 ==> a % 256 == 0)
  {
  }

  /** The evaluator's stage for a subshell. */
  lemma {:induction false} StageOfSubshell(o: Oracle, task: Task, base: FdTable, st: State)
    requires task.sub.Shell?
    ensures var (child, ok) := Redirected(o, task, base, st);
            var made := PipeMade(st.world, task.token);
            var e := Evaluate(o, Group(task.sub.tasks), child, Begin(made));
            var st' := Stage(o, task, base, st);
            && StageBody(o, task, base, st) == (if ok then (e.ret % 256, e.world) else (REDIRECTION_ERROR, made))
            && st'.ret == Reported(task.token, StageBody(o, task, base, st).0)
            && st'.world == StageBody(o, task, base, st).1
  {
    hide Redirected;
  }

  lemma {:induction false} SubshellFollows(o: Oracle, task: Task, base: FdTable, st: State, s: ExecState, read: bool)
    requires Follows(s, base, st) && task.sub.Shell? && PairedCloses(task.ops)
    requires Avoids(task.ops, Kept(task, base, st)) && InnerFollows(o, task, base, st, read)
    requires read && Unwaited(task.token) ==> StageBody(o, task, base, st).0 == 0
    ensures var s', st' := RunStage(o, task, s), Stage(o, task, base, st);
            s'.world == st'.world && (read ==> SameStatus(s'.ret, st'.ret))
  {
    hide RunStage;
    hide RunTasks;
    hide Evaluate;
    SubshellStarts(o, task, base, st, s);
    RedirectsAgreeIff(o, task, base, st);
    StageOfSubshell(o, task, base, st);
    hide Stage;
    hide StageBody;
    hide Redirected;
    hide Applied;
    hide Kept;
    hide Avoids;
    hide Follows;
    var (child, ok) := Redirected(o, task, base, st);
    if ok && read {
      var made := PipeMade(st.world, task.token);
      var inner := RunTasks(o, Truncated(task.sub.tasks), Start(child, made));
      SameStatusByte(inner.ret, Evaluate(o, Group(task.sub.tasks), child, Begin(made)).ret);
    }
  }

  lemma {:induction false} StageAgrees(o: Oracle, task: Task, base: FdTable, st: State, s: ExecState, read: bool)
    requires Follows(s, base, st) && WithinTask(task)
    requires AvoidingStage(o, task, base, st) && RegularStage(o, task, base, st, read)
    ensures var s', st' := RunStage(o, task, s), Stage(o, task, base, st);
            Follows(s', base, st') && (read ==> SameStatus(s'.ret, st'.ret))
    decreases Depth([task]), 1
  {
    hide Wire;
    hide Unwire;
    hide RunTask;
    hide RunTasks;
    hide Evaluate;
    hide StageBody;
    StepAttached(o, task, s, base, st.input);
    RedirectsAgreeIff(o, task, base, st);
    if task.sub.NoShell? {
      ProgramAgreesIff(o, task, base, st, s);
    } else {
      InnerRuns(o, task, base, st, read);
      SubshellFollows(o, task, base, st, s, read);
    }
    assert RunStage(o, task, s).skip == 0;
    hide Step;
  }

  lemma {:induction false} ChildOpens(o: Oracle, task: Task, base: FdTable, st: State)
    requires 0 in base && 1 in base && PairedCloses(task.ops)
    ensures var (child, ok) := Redirected(o, task, base, st);
            ok ==> child.Keys == base.Keys + Targets(task.ops) && 0 in child && 1 in child
  {
    var table := StageTable(base, st.input, task.token, st.world.pipes);
    assert table.Keys == base.Keys;
    FoldKeys(table, task.ops, o.opens(st.world.trace));
    hide Targets;
    assert Redirected(o, task, base, st).1 ==> 0 in Redirected(o, task, base, st).0.Keys;
  }

  lemma {:induction false} InnerRuns(o: Oracle, task: Task, base: FdTable, st: State, read: bool)
    requires 0 in base && 1 in base && task.sub.Shell? && WithinTask(task)
    requires AvoidingStage(o, task, base, st) && RegularStage(o, task, base, st, read)
    ensures InnerFollows(o, task, base, st, read)
    decreases Depth([task]), 0
  {
    hide RunTasks;
    hide RunScript;
    hide Evaluate;
    hide StageBody;
    hide RegularScript;
    hide AvoidingScript;
    hide Redirected;
    var (child, ok) := Redirected(o, task, base, st);
    var tasks, made := task.sub.tasks, PipeMade(st.world, task.token);
    ChildOpens(o, task, base, st);
    assert Truncated(tasks) == tasks;
    if ok {
      ScriptAgrees(o, Group(tasks), child, Begin(made), Start(child, made), read);
      LoopIsStructured(o, tasks, Start(child, made));
    }
  }

  lemma {:induction false} PipelineAgrees(o: Oracle, p: Pipeline, base: FdTable, st: State, s: ExecState, read: bool)
    requires Follows(s, base, st) && IsPipeline(p) && AllWithin(p)
    requires AvoidingPipeline(o, p, base, st) && RegularPipeline(o, p, base, st, read)
    ensures var s', st' := RunPipeline(o, p, s), EvalPipeline(o, p, base, st);
            && Follows(s', base, st') && (read ==> SameStatus(s'.ret, st'.ret))
            && (st'.input.FromPipe? <==> End(p) == Pipe)
    decreases Depth(p), 2, |p|
  {
    hide RunStage;
    hide RegularStage;
    hide AvoidingStage;
    DepthSplit([p[0]], p[1..]);
    assert [p[0]] + p[1..] == p;
    assert p[0] in p;
    StageAgrees(o, p[0], base, st, s, read && |p| == 1);
    assert Stage(o, p[0], base, st).input.FromPipe? <==> p[0].token == Pipe;
    hide Stage;
    if |p| > 1 {
      PipelineAgrees(o, p[1..], base, Stage(o, p[0], base, st), RunStage(o, p[0], s), read);
    } else {
      assert p[1..] == [];
    }
  }

  lemma {:induction false} AndOrAgrees(o: Oracle, a: AndOr, base: FdTable, st: State, s: ExecState, read: bool)
    requires Follows(s, base, st) && st.input.NoPipe? && IsAndOr(a) && AllWithin(Join(a))
    requires AvoidingAndOr(o, a, base, st) && RegularAndOr(o, a, base, st, read)
    ensures var s', st' := RunAndOr(o, a, s), EvalAndOr(o, a, base, st);
            && Follows(s', base, st') && (read ==> SameStatus(s'.ret, st'.ret))
            && (EndOfAndOr(a) != Pipe ==> st'.input.NoPipe?)
    decreases Depth(Join(a)), 3, |a|
  {
    hide EvalPipeline;
    hide RunPipeline;
    hide RegularPipeline;
    hide AvoidingPipeline;
    var n := |a| - 1;
    DepthFirst(a);
    if n == 0 {
      PipelineAgrees(o, a[0], base, st, s, read);
    } else {
      AndOrAgrees(o, a[..n], base, st, s, true);
      var left, mid := EvalAndOr(o, a[..n], base, st), RunAndOr(o, a[..n], s);
      if GoesOn(left.ret, End(a[n - 1])) {
        PipelineAgrees(o, a[n], base, left, mid, read);
      }
    }
  }

  lemma {:induction false} ScriptAgrees(o: Oracle, c: Script, base: FdTable, st: State, s: ExecState, read: bool)
    requires Follows(s, base, st) && (read ==> c != [] || SameStatus(s.ret, st.ret)) && st.input.NoPipe?
    requires IsScript(c) && AllWithin(Flatten(c))
    requires AvoidingScript(o, c, base, st) && RegularScript(o, c, base, st, read)
    ensures var s', st' := RunScript(o, c, s), Evaluate(o, c, base, st);
            Follows(s', base, st') && (read ==> SameStatus(s'.ret, st'.ret))
    decreases Depth(Flatten(c)), 4, |c|
  {
    hide EvalAndOr;
    hide RunAndOr;
    hide RegularAndOr;
    hide AvoidingAndOr;
    if c != [] {
      DepthSplit(Join(c[0]), Flatten(c[1..]));
      AndOrAgrees(o, c[0], base, st, s, read && |c| == 1);
      if |c| > 1 {
        ScriptAgrees(o, c[1..], base, Ended(c[0], EvalAndOr(o, c[0], base, st)), RunAndOr(o, c[0], s), read);
      } else {
        assert c[1..] == [];
      }
    }
  }

  // ----- main result -----

  lemma NothingRuns(o: Oracle, s: ExecState)
    ensures RunTasks(o, [], s) == s
  {
  }

  lemma {:induction false} ListAgrees(o: Oracle, tasks: seq<Task>, base: FdTable, w: World, read: bool)
    requires 0 in base && 1 in base && Within(tasks)
    requires AvoidingScript(o, Group(tasks), base, Begin(w))
    requires RegularList(o, tasks, base, w, read)
    ensures var s := RunTasks(o, tasks, Start(base, w)).(skip := 0);
            var e := Evaluate(o, Group(tasks), base, Begin(w));
            Follows(s, base, e) && (read ==> SameStatus(s.ret, e.ret))
  {
    hide Evaluate;
    hide RunTasks;
    hide RunScript;
    hide RegularScript;
    hide AvoidingScript;
    hide WithinTask;
    hide Spare;
    hide IsScript;
    ScriptAgrees(o, Group(tasks), base, Begin(w), Start(base, w), read);
    LoopIsStructured(o, tasks, Start(base, w));
  }

  /**
  Run on any task list within the parser's limits, in a run whose reached redirects name
  nothing the loop keeps for itself and succeed where they are a program's, the loop starts
  exactly the programs of the list's script, in the same order and with the same descriptors,
  and gives the caller its table back; a read end is left only by a final `|`. If its status
  is read it is the same too, but for 255 instead of 1 when a subshell's redirects failed.
  */
  lemma {:induction false} FlatRunIsScript(o: Oracle, tasks: seq<Task>, base: FdTable, w: World, read: bool)
    requires 0 in base && 1 in base && Within(tasks)
    requires AvoidingScript(o, Group(tasks), base, Begin(w))
    requires RegularList(o, tasks, base, w, read)
    ensures var s := RunTasks(o, Truncated(tasks), Start(base, w));
            var e := Evaluate(o, Group(tasks), base, Begin(w));
            && s.world == e.world && s.fds == Held(base, e.input) && (read ==> SameStatus(s.ret, e.ret))
            && (tasks == [] || tasks[|tasks| - 1].token != Pipe ==> s.fds == base)
  {
    hide Evaluate;
    hide RunTasks;
    hide RegularList;
    hide AvoidingScript;
    hide WithinTask;
    hide Group;
    hide Spare;
    assert Truncated(tasks) == tasks;
    ListAgrees(o, tasks, base, w, read);
    LoopHeads(o, tasks, Start(base, w));
    NothingRuns(o, Start(base, w));
  }

  // ----- conditions on the list alone -----

  /**
  No redirect names a descriptor that the loop keeps for itself in that place, given which
  descriptors the caller has open and whether a pipe comes before the list.
  */
  ghost predicate Clear(tasks: seq<Task>, open: set<nat>, piped: bool)
    decreases tasks
  {
    tasks != [] ==> ClearTask(tasks[0], open, piped) && Clear(tasks[1..], open, tasks[0].token == Pipe)
  }

  ghost predicate ClearTask(t: Task, open: set<nat>, piped: bool)
    decreases t
  {
    && Avoids(t.ops, HiddenAt(open, piped, t.token))
    && (t.sub.Shell? ==> Clear(t.sub.tasks, open + Targets(t.ops), false))
  }

  /** Whether a pipe comes after a list that has one before it if `piped`. */
  function PipedAfter(tasks: seq<Task>, piped: bool): bool
  {
    if tasks == [] then piped else tasks[|tasks| - 1].token == Pipe
  }

  lemma {:induction false} ClearSplit(a: seq<Task>, b: seq<Task>, open: set<nat>, piped: bool)
    requires Clear(a + b, open, piped)
    ensures Clear(a, open, piped) && Clear(b, open, PipedAfter(a, piped))
    decreases |a|
  {
    hide ClearTask;
    if a == [] {
      assert a + b == b;
    } else {
      assert (a + b)[0] == a[0] && (a + b)[1..] == a[1..] + b;
      ClearSplit(a[1..], b, open, a[0].token == Pipe);
    }
  }

  lemma {:induction false} JoinEnds(a: AndOr, piped: bool)
    requires IsAndOr(a)
    ensures PipedAfter(Join(a), piped) <==> EndOfAndOr(a) == Pipe
  {
    var n := |a| - 1;
    assert Join(a)[|Join(a)| - 1] == a[n][|a[n]| - 1];
  }

  /** Whatever the outcome of programs and opens, such a list is run without naming a hidden descriptor. */
  lemma {:induction false} ClearStageAvoids(o: Oracle, task: Task, base: FdTable, st: State)
    requires 0 in base && 1 in base && WithinTask(task) && ClearTask(task, base.Keys, st.input.FromPipe?)
    ensures AvoidingStage(o, task, base, st)
    decreases Depth([task]), 1
  {
    hide Redirected;
    hide Clear;
    hide AvoidingScript;
    var (child, ok) := Redirected(o, task, base, st);
    ChildOpens(o, task, base, st);
    if task.sub.Shell? && ok {
      ClearScriptAvoids(o, Group(task.sub.tasks), child, Begin(PipeMade(st.world, task.token)));
    }
  }

  lemma {:induction false} ClearPipelineAvoids(o: Oracle, p: Pipeline, base: FdTable, st: State)
    requires 0 in base && 1 in base && AllWithin(p) && Clear(p, base.Keys, st.input.FromPipe?)
    ensures AvoidingPipeline(o, p, base, st)
    ensures p != [] ==> (EvalPipeline(o, p, base, st).input.FromPipe? <==> End(p) == Pipe)
    decreases Depth(p), 2, |p|
  {
    hide ClearTask;
    hide AvoidingStage;
    if p != [] {
      DepthSplit([p[0]], p[1..]);
      assert [p[0]] + p[1..] == p;
      assert p[0] in p;
      ClearStageAvoids(o, p[0], base, st);
      assert Stage(o, p[0], base, st).input.FromPipe? <==> p[0].token == Pipe;
      hide Stage;
      ClearPipelineAvoids(o, p[1..], base, Stage(o, p[0], base, st));
    }
  }

  lemma {:induction false} ClearAndOrAvoids(o: Oracle, a: AndOr, base: FdTable, st: State)
    requires 0 in base && 1 in base && st.input.NoPipe? && IsAndOr(a) && AllWithin(Join(a))
    requires Clear(Join(a), base.Keys, false)
    ensures AvoidingAndOr(o, a, base, st)
    ensures EndOfAndOr(a) != Pipe ==> EvalAndOr(o, a, base, st).input.NoPipe?
    decreases Depth(Join(a)), 3, |a|
  {
    hide EvalPipeline;
    hide AvoidingPipeline;
    hide Clear;
    var n := |a| - 1;
    DepthFirst(a);
    ClearSplit(Join(a[..n]), a[n], base.Keys, false);
    if n == 0 {
      ClearPipelineAvoids(o, a[0], base, st);
    } else {
      JoinEnds(a[..n], false);
      ClearAndOrAvoids(o, a[..n], base, st);
      ClearPipelineAvoids(o, a[n], base, EvalAndOr(o, a[..n], base, st));
    }
  }

  lemma {:induction false} ClearScriptAvoids(o: Oracle, c: Script, base: FdTable, st: State)
    requires 0 in base && 1 in base && st.input.NoPipe? && IsScript(c) && AllWithin(Flatten(c))
    requires Clear(Flatten(c), base.Keys, false)
    ensures AvoidingScript(o, c, base, st)
    decreases Depth(Flatten(c)), 4, |c|
  {
    hide EvalAndOr;
    hide AvoidingAndOr;
    hide Clear;
    if c != [] {
      DepthSplit(Join(c[0]), Flatten(c[1..]));
      ClearSplit(Join(c[0]), Flatten(c[1..]), base.Keys, false);
      ClearAndOrAvoids(o, c[0], base, st);
      if |c| > 1 {
        JoinEnds(c[0], false);
        ClearScriptAvoids(o, c[1..], base, Ended(c[0], EvalAndOr(o, c[0], base, st)));
      }
    }
  }

  /** Redirects of a command in a pipeline name only known descriptors; a command alone may name any. */
  ghost predicate Known(tasks: seq<Task>, known: set<nat>, piped: bool)
    decreases tasks
  {
    tasks != [] ==> KnownTask(tasks[0], known, piped) && Known(tasks[1..], known, tasks[0].token == Pipe)
  }

  ghost predicate KnownTask(t: Task, known: set<nat>, piped: bool)
    decreases t
  {
    && (piped || t.token == Pipe ==> NamesOnly(t.ops, known))
    && (t.sub.Shell? ==> Known(t.sub.tasks, known + Targets(t.ops), false))
  }

  lemma {:induction false} KnownIsClear(tasks: seq<Task>, known: set<nat>, open: set<nat>, piped: bool)
    requires known <= open && Known(tasks, known, piped)
    ensures Clear(tasks, open, piped)
    decreases tasks
  {
    if tasks != [] {
      var t := tasks[0];
      if t.sub.Shell? {
        KnownIsClear(t.sub.tasks, known + Targets(t.ops), open + Targets(t.ops), false);
      }
      KnownIsClear(tasks[1..], known, open, t.token == Pipe);
      assert Avoids(t.ops, HiddenAt(open, piped, t.token));
    }
  }
}

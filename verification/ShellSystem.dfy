/** `v_secure_system` end to end, and inputs at which it departs from the shell language. */
module ShellSystem {
  import opened ShellSyntax
  import opened Descriptors
  import opened ShellWorld
  import opened ShellExecutor
  import opened ShellGrammar
  import opened ShellReference
  import opened ShellControl
  import opened ShellWiring
  import opened ShellRefinement
  import ShellParser
  import ShellParserProps
  import Redirects

  lemma {:induction false} ParsedIsWithin(tasks: seq<Task>, env: ShellParser.Env)
    requires ShellParserProps.GoodTasks(tasks, env)
    ensures Within(tasks)
    decreases tasks
  {
    forall t | t in tasks
      ensures WithinTask(t)
    {
      var i :| 0 <= i < |tasks| && tasks[i] == t;
      assert ShellParserProps.GoodTask(tasks[i], env);
      if t.sub.Shell? {
        ParsedIsWithin(t.sub.tasks, env);
      }
    }
  }

  /** `v_secure_system`: -1 if the text does not parse, else the exit status of a child that runs the list. */
  function System(o: Oracle, format: string, env: ShellParser.Env, base: FdTable, w: World): (r: (int, World))
  {
    match ShellParser.Parse(format, env)
    case Fail(_) => (-1, w)
    case Ok(tasks, _, _) =>
      var s := RunTasks(o, Truncated(tasks), Start(base, w));
      (s.ret % 256, s.world)
  }

  /**
  The system starts the programs that the script of a text denotes and leaves its descriptors
  as they were. Its result, if read, is the low byte of the script's status, or 255 for 1 when
  a subshell's redirects failed.
  */
  ghost predicate RunsTheScript(o: Oracle, format: string, env: ShellParser.Env, base: FdTable, w: World, read: bool)
    requires ShellParser.Parse(format, env).Ok?
  {
    var tasks := ShellParser.Parse(format, env).tasks;
    var (ret, world) := System(o, format, env, base, w);
    var s := RunTasks(o, Truncated(tasks), Start(base, w));
    var e := Evaluate(o, Group(tasks), base, Begin(w));
    && world == e.world && s.fds == Held(base, e.input) && (read ==> SameStatus(ret, e.ret % 256))
    && (tasks == [] || tasks[|tasks| - 1].token != Pipe ==> s.fds == base)
  }

  /**
  Whatever the format, the arguments and the outcome of programs: if it parses, no redirect
  that is reached names a descriptor that the loop keeps for itself in that place, and the run
  is regular, the system runs the script that the text denotes. The bound of 32 drops nothing.
  */
  lemma SystemRunsTheScript(format: string, env: ShellParser.Env, o: Oracle, base: FdTable, w: World, read: bool)
    ensures var r := ShellParser.Parse(format, env);
            r.Ok? && 0 in base && 1 in base && AvoidingScript(o, Group(r.tasks), base, Begin(w)) ==>
              RegularList(o, r.tasks, base, w, read) ==> RunsTheScript(o, format, env, base, w, read)
  {
    hide RegularList;
    hide AvoidingScript;
    hide ShellParser.Parse;
    hide RunTasks;
    hide Evaluate;
    hide Truncated;
    var r := ShellParser.Parse(format, env);
    if r.Ok? && 0 in base && 1 in base {
      ShellParserProps.ParsedTreesAreGood(format, env);
      ParsedIsWithin(r.tasks, env);
      if AvoidingScript(o, Group(r.tasks), base, Begin(w)) && RegularList(o, r.tasks, base, w, read) {
        FlatRunIsScript(o, r.tasks, base, w, read);
        if read {
          var s, e := RunTasks(o, Truncated(r.tasks), Start(base, w)), Evaluate(o, Group(r.tasks), base, Begin(w));
          SameStatusByte(s.ret, e.ret);
        }
      }
    }
  }

  /** In particular, in every regular run, when no redirect of the list names such a descriptor. */
  lemma ClearListRuns(format: string, env: ShellParser.Env, o: Oracle, base: FdTable, w: World, read: bool)
    ensures var r := ShellParser.Parse(format, env);
            r.Ok? && 0 in base && 1 in base && Clear(r.tasks, base.Keys, false) ==>
              RegularList(o, r.tasks, base, w, read) ==> RunsTheScript(o, format, env, base, w, read)
  {
    hide RegularList;
    hide AvoidingScript;
    hide Clear;
    hide ShellParser.Parse;
    hide RunsTheScript;
    var r := ShellParser.Parse(format, env);
    if r.Ok? && 0 in base && 1 in base && Clear(r.tasks, base.Keys, false) {
      ShellParserProps.ParsedTreesAreGood(format, env);
      ParsedIsWithin(r.tasks, env);
      ClearScriptAvoids(o, Group(r.tasks), base, Begin(w));
    }
    SystemRunsTheScript(format, env, o, base, w, read);
  }

  /**
  And so when the redirects of pipelines name only descriptors that the caller, or an
  enclosing subshell's redirects, have opened; those of a command alone may name any.
  */
  lemma KnownRedirectsRun(format: string, env: ShellParser.Env, o: Oracle, base: FdTable, w: World, read: bool)
    ensures var r := ShellParser.Parse(format, env);
            r.Ok? && 0 in base && 1 in base && Known(r.tasks, base.Keys, false) ==>
              RegularList(o, r.tasks, base, w, read) ==> RunsTheScript(o, format, env, base, w, read)
  {
    hide RegularList;
    hide ShellParser.Parse;
    hide RunsTheScript;
    var r := ShellParser.Parse(format, env);
    if r.Ok? && Known(r.tasks, base.Keys, false) {
      KnownIsClear(r.tasks, base.Keys, base.Keys, false);
    }
    ClearListRuns(format, env, o, base, w, read);
  }

  /** A text without commands: the system returns 255 where the language has 0. */
  lemma NothingToRun(o: Oracle, format: string, env: ShellParser.Env, base: FdTable, w: World)
    ensures var r := ShellParser.Parse(format, env);
            r.Ok? && r.tasks == [] ==>
              && System(o, format, env, base, w) == (255, w)
              && Evaluate(o, Group(r.tasks), base, Begin(w)) == Begin(w) && Begin(w).ret == 0
  {
    hide ShellParser.Parse;
  }

  // ----- a list of one task -----

  lemma {:induction false} OneTask(o: Oracle, t: Task, base: FdTable, w: World)
    ensures RunTasks(o, [t], Start(base, w)).(skip := 0) == RunStage(o, t, Start(base, w))
    ensures Evaluate(o, Group([t]), base, Begin(w)) == Stage(o, t, base, Begin(w))
  {
    assert t.token == Background ==> Stage(o, t, base, Begin(w)).ret == 0;
    hide Step;
    hide Stage;
    var st, s := Begin(w), Start(base, w);
    assert [t][1..] == [] && [t][..1] == [t];
    assert Group([t]) == [[[t]]] by {
      assert FirstPipeline([t]) == 1;
      assert FirstAndOr([t]) == ([[t]], []);
    }
    assert s.(skip := 0) == s;
    assert RunTasks(o, [t], s) == RunTasks(o, [], Step(o, t, s));
    assert EvalPipeline(o, [t], base, st) == EvalPipeline(o, [], base, Stage(o, t, base, st));
    var a: AndOr := [[t]];
    assert a[..0] == [];
    assert EvalAndOr(o, [], base, st) == st && EvalAndOr(o, a, base, st) == EvalPipeline(o, [t], base, st);
    var c: Script := [a];
    assert c[1..] == [];
    assert Evaluate(o, c, base, st) == Evaluate(o, [], base, Ended(a, EvalAndOr(o, a, base, st)));
    assert EndOfAndOr(a) == t.token;
    assert Ended(a, Stage(o, t, base, st)) == Stage(o, t, base, st);
  }

  // ----- redirects inside a pipeline -----

  const PlainStd: FdTable := map[0 := Inherited(0), 1 := Inherited(1), 2 := Inherited(2)]

  /** With only 0, 1 and 2 open: what the first, a middle, the last and a lone command hide. */
  lemma PlainHides(token: Token)
    ensures HiddenAt(PlainStd.Keys, false, Pipe) == {3, 5}
    ensures HiddenAt(PlainStd.Keys, true, Pipe) == {3, 4, 6}
    ensures token != Pipe ==> HiddenAt(PlainStd.Keys, true, token) == {4}
  {
    hide Spare;
    var open := PlainStd.Keys;
    assert open == {0, 1, 2};
    Spares(open);
    LowestIs(open, 3);
    LowestIs(open + {3}, 4);
    LowestIs(open + {3} + {4}, 5);
    LowestIs(open + {3} + {4} + {5}, 6);
  }

  lemma FoldOne(t: FdTable, op: FdOp, opens: Redirects.Opens)
    ensures Redirects.Fold(t, [op], opens) == Redirects.Effect(t, op, opens)
  {
    assert [op][1..] == [];
  }

  lemma StartFollows(base: FdTable, w: World)
    requires 0 in base && 1 in base
    ensures Follows(Start(base, w), base, Begin(w))
  {
  }

  /** `cmd 3>f | ...`: the program starts without descriptor 3, although the file was opened for it. */
  lemma RedirectLost(o: Oracle, w: World, path: string, argv: seq<Word>)
    requires o.opens(w.trace)(path, Truncate)
    ensures var task := Task(argv, NoShell, [Open(3, path, Truncate)], Pipe);
            var s', st' := RunStage(o, task, Start(PlainStd, w)), Stage(o, task, PlainStd, Begin(w));
            && |s'.world.trace| == |st'.world.trace| == |w.trace| + 1
            && 3 !in s'.world.trace[|w.trace|].fds
            && 3 in st'.world.trace[|w.trace|].fds && st'.world.trace[|w.trace|].fds[3] == Opened(path, Truncate)
  {
    hide RunStage;
    hide Prepared;
    hide HiddenAt;
    var ops := [Open(3, path, Truncate)];
    var task, st := Task(argv, NoShell, ops, Pipe), Begin(w);
    StartFollows(PlainStd, w);
    PlainHides(Pipe);
    FoldOne(Prepared(PlainStd, NoPipe, Pipe, w.pipes), ops[0], o.opens(w.trace));
    FoldOne(StageTable(PlainStd, NoPipe, Pipe, w.pipes), ops[0], o.opens(w.trace));
    ProgramStarts(o, task, PlainStd, st, Start(PlainStd, w));
    assert Stage(o, task, PlainStd, st).world == StageBody(o, task, PlainStd, st).1;
  }

  /**
  `cmd >&3 | ...` with 3 closed: the program runs with the read end of its own pipe as its
  output, where the language has the redirect fail and the program not run.
  */
  lemma HiddenSourceRead(o: Oracle, w: World, argv: seq<Word>)
    ensures var task := Task(argv, NoShell, [Dup2(3, 1)], Pipe);
            var s', st' := RunStage(o, task, Start(PlainStd, w)), Stage(o, task, PlainStd, Begin(w));
            && |s'.world.trace| == |w.trace| + 1 && st'.world.trace == w.trace
            && 1 in s'.world.trace[|w.trace|].fds && s'.world.trace[|w.trace|].fds[1] == PipeRead(w.pipes)
  {
    hide RunStage;
    hide HiddenAt;
    hide Spare;
    var ops := [Dup2(3, 1)];
    var task, st := Task(argv, NoShell, ops, Pipe), Begin(w);
    StartFollows(PlainStd, w);
    PlainHides(Pipe);
    Spares(PlainStd.Keys);
    LowestIs(PlainStd.Keys, 3);
    FoldOne(Prepared(PlainStd, NoPipe, Pipe, w.pipes), ops[0], o.opens(w.trace));
    FoldOne(StageTable(PlainStd, NoPipe, Pipe, w.pipes), ops[0], o.opens(w.trace));
    ProgramStarts(o, task, PlainStd, st, Start(PlainStd, w));
    assert Stage(o, task, PlainStd, st).world == StageBody(o, task, PlainStd, st).1;
  }

  // ----- failed redirects and background subshells -----

  /** `cmd >f` when `f` cannot be opened: the system starts `cmd` on the caller's output; the language does not. */
  lemma FailedRedirectRuns(o: Oracle, base: FdTable, w: World, path: string, argv: seq<Word>)
    requires 0 in base && 1 in base && !o.opens(w.trace)(path, Truncate)
    ensures var tasks := [Task(argv, NoShell, [Open(1, path, Truncate)], Semicolon)];
            var s, e := RunTasks(o, tasks, Start(base, w)), Evaluate(o, Group(tasks), base, Begin(w));
            && s.world.trace == w.trace + [Exec(Texts(argv), base)]
            && e.world.trace == w.trace && e.ret == REDIRECTION_ERROR
  {
    hide RunTasks;
    hide Evaluate;
    hide RunStage;
    var task := Task(argv, NoShell, [Open(1, path, Truncate)], Semicolon);
    StartFollows(base, w);
    OneTask(o, task, base, w);
    ProgramStarts(o, task, base, Begin(w), Start(base, w));
    assert Stage(o, task, base, Begin(w)).world == StageBody(o, task, base, Begin(w)).1;
  }

  /** `cmd >f | ...` when `f` cannot be opened: `cmd` is started with the loop's descriptors 3 and 5 open. */
  lemma FailedRedirectLeaks(o: Oracle, w: World, path: string, argv: seq<Word>)
    requires !o.opens(w.trace)(path, Truncate)
    ensures var task := Task(argv, NoShell, [Open(1, path, Truncate)], Pipe);
            var trace := RunStage(o, task, Start(PlainStd, w)).world.trace;
            |trace| == |w.trace| + 1 && 3 in trace[|w.trace|].fds && 5 in trace[|w.trace|].fds
  {
    hide RunStage;
    hide HiddenAt;
    var task := Task(argv, NoShell, [Open(1, path, Truncate)], Pipe);
    StartFollows(PlainStd, w);
    PlainHides(Pipe);
    LeaksIffFailed(o, task, PlainStd, Begin(w), Start(PlainStd, w));
  }

  /** `(...) >f` when `f` cannot be opened: nothing is run in either, but the statuses differ. */
  lemma FailedSubshell(o: Oracle, base: FdTable, w: World, path: string, sub: seq<Task>)
    requires 0 in base && 1 in base && !o.opens(w.trace)(path, Truncate)
    ensures var tasks := [Task([], Shell(sub), [Open(1, path, Truncate)], Semicolon)];
            var s, e := RunTasks(o, tasks, Start(base, w)), Evaluate(o, Group(tasks), base, Begin(w));
            s.world == e.world == w && s.ret == 255 && e.ret == REDIRECTION_ERROR
  {
    hide RunTasks;
    hide Evaluate;
    hide RunStage;
    var task := Task([], Shell(sub), [Open(1, path, Truncate)], Semicolon);
    StartFollows(base, w);
    OneTask(o, task, base, w);
    SubshellStarts(o, task, base, Begin(w), Start(base, w));
    assert Stage(o, task, base, Begin(w)).world == StageBody(o, task, base, Begin(w)).1;
  }

  /** `(cmd) &`: the system waits, and its status is the command's where the language has 0. */
  lemma BackgroundSubshellStatus(o: Oracle, base: FdTable, w: World, argv: seq<Word>)
    requires 0 in base && 1 in base
    ensures var tasks := [Task([], Shell([Task(argv, NoShell, [], Semicolon)]), [], Background)];
            var s, e := RunTasks(o, tasks, Start(base, w)), Evaluate(o, Group(tasks), base, Begin(w));
            && s.world.trace == w.trace + [Exec(Texts(argv), base)]
            && s.ret == o.exit(s.world.trace) % 256 && e.ret == 0
  {
    hide RunTasks;
    hide Evaluate;
    hide RunStage;
    var inner := Task(argv, NoShell, [], Semicolon);
    var task := Task([], Shell([inner]), [], Background);
    StartFollows(base, w);
    OneTask(o, task, base, w);
    OneTask(o, inner, base, w);
    SubshellStarts(o, task, base, Begin(w), Start(base, w));
    assert base - {} == base;
    ProgramStarts(o, inner, base, Begin(w), Start(base, w));
    assert Truncated([inner]) == [inner];
  }

  // ----- two wrongs -----

  lemma {:induction false} TwoTasks(o: Oracle, t: Task, u: Task, base: FdTable, w: World)
    requires Connects(t.token) && Terminates(u.token)
    ensures var s := RunStage(o, t, Start(base, w));
            RunTasks(o, [t, u], Start(base, w)).(skip := 0) ==
            if GoesOn(s.ret, t.token) then RunStage(o, u, s) else s
    ensures var st := Stage(o, t, base, Begin(w));
            var left := if GoesOn(st.ret, t.token) then Stage(o, u, base, st) else st;
            Evaluate(o, Group([t, u]), base, Begin(w)) == if u.token == Background then left.(ret := 0) else left
  {
    hide Step;
    hide Stage;
    var st, s := Begin(w), Start(base, w);
    var a: AndOr, c: Script := [[t], [u]], [[[t], [u]]];
    TwoGrouped(t, u);
    LoopIsStructured(o, [t, u], s);
    assert a[..1] == [[t]] && a[..1][..0] == [] && c[1..] == [] && [t][1..] == [] && [u][1..] == [];
    var st1, s1 := Stage(o, t, base, st), RunStage(o, t, s);
    assert EvalPipeline(o, [t], base, st) == EvalPipeline(o, [], base, st1) == st1;
    var st2 := Stage(o, u, base, st1);
    assert EvalPipeline(o, [u], base, st1) == EvalPipeline(o, [], base, st2) == st2;
    assert EvalAndOr(o, [], base, st) == st;
    assert EvalAndOr(o, a[..1], base, st) == st1;
    assert EndOfAndOr(a) == u.token && End(a[0]) == t.token;
    var ended := Ended(a, EvalAndOr(o, a, base, st));
    assert Evaluate(o, c, base, st) == Evaluate(o, [], base, ended) == ended;
    assert RunPipeline(o, [t], s) == RunPipeline(o, [], s1) == s1;
    assert RunPipeline(o, [u], s1) == RunPipeline(o, [], RunStage(o, u, s1)) == RunStage(o, u, s1);
    assert RunAndOr(o, [], s) == s && RunAndOr(o, a[..1], s) == s1;
    assert RunScript(o, c, s) == RunScript(o, [], RunAndOr(o, a, s)) == RunAndOr(o, a, s);
  }

  lemma {:induction false} TwoGrouped(t: Task, u: Task)
    requires Connects(t.token) && Terminates(u.token)
    ensures Group([t, u]) == [[[t], [u]]]
  {
    var tasks := [t, u];
    assert FirstPipeline(tasks) == 1 && tasks[..1] == [t] && tasks[1..] == [u];
    assert FirstPipeline([u]) == 1 && [u][..1] == [u] && [u][1..] == [];
    assert FirstAndOr([u]) == ([[u]], []);
    assert FirstAndOr(tasks) == ([[t]] + [[u]], []);
    assert [[t]] + [[u]] == [[t], [u]];
    assert Group([]) == [];
  }

  /** `a && b &` with a failing `a`: the list has the status of `a`; the language has 0. */
  lemma {:induction false} SkippedBackground(o: Oracle, base: FdTable, w: World, a: seq<Word>, b: seq<Word>)
    requires 0 in base && 1 in base && o.exit(w.trace + [Exec(Texts(a), base)]) != 0
    ensures var tasks := [Task(a, NoShell, [], And), Task(b, NoShell, [], Background)];
            var s, e := RunTasks(o, tasks, Start(base, w)), Evaluate(o, Group(tasks), base, Begin(w));
            && s.world == e.world == w.(trace := w.trace + [Exec(Texts(a), base)])
            && s.ret == o.exit(s.world.trace) && e.ret == 0
  {
    hide RunTasks;
    hide Evaluate;
    hide Group;
    hide RunStage;
    var t, u := Task(a, NoShell, [], And), Task(b, NoShell, [], Background);
    TwoTasks(o, t, u, base, w);
    StartFollows(base, w);
    ProgramStarts(o, t, base, Begin(w), Start(base, w));
    assert base - {} == base;
    assert Stage(o, t, base, Begin(w)).world == StageBody(o, t, base, Begin(w)).1;
  }

  /** So `(a && b &) && c`: the language runs `c`, and the system does not. */
  lemma {:induction false} SkippedBackgroundStops(o: Oracle, base: FdTable, w: World,
                                                  a: seq<Word>, b: seq<Word>, c: seq<Word>)
    requires 0 in base && 1 in base && o.exit(w.trace + [Exec(Texts(a), base)]) % 256 != 0
    ensures var sub := [Task(a, NoShell, [], And), Task(b, NoShell, [], Background)];
            var tasks := [Task([], Shell(sub), [], And), Task(c, NoShell, [], Semicolon)];
            var s, e := RunTasks(o, tasks, Start(base, w)), Evaluate(o, Group(tasks), base, Begin(w));
            && s.world.trace == w.trace + [Exec(Texts(a), base)]
            && e.world.trace == s.world.trace + [Exec(Texts(c), base)]
  {
    hide RunTasks;
    hide Evaluate;
    hide Group;
    hide RunStage;
    var sub := [Task(a, NoShell, [], And), Task(b, NoShell, [], Background)];
    var t, u := Task([], Shell(sub), [], And), Task(c, NoShell, [], Semicolon);
    SkippedBackground(o, base, w, a, b);
    TwoTasks(o, t, u, base, w);
    StartFollows(base, w);
    SubshellStarts(o, t, base, Begin(w), Start(base, w));
    assert base - {} == base && Truncated(sub) == sub;
    StageOfSubshell(o, t, base, Begin(w));
    var st := Stage(o, t, base, Begin(w));
    assert st.input == NoPipe && st.ret == 0;
    assert Stage(o, u, base, st).world == StageBody(o, u, base, st).1;
  }

  /**
  `cmd >f || cmd` when `f` cannot be opened: the system starts the first `cmd` where the
  language starts the second, and nobody can tell. So runs can agree though a stage does not,
  and it is for the single stage that the condition is exact.
  */
  lemma {:induction false} TwoWrongsAgree(o: Oracle, base: FdTable, w: World, path: string, argv: seq<Word>)
    requires 0 in base && 1 in base && !o.opens(w.trace)(path, Truncate)
    requires o.exit(w.trace + [Exec(Texts(argv), base)]) == 0
    ensures var t := Task(argv, NoShell, [Open(1, path, Truncate)], Or);
            var tasks := [t, Task(argv, NoShell, [], Semicolon)];
            var s, e := RunTasks(o, tasks, Start(base, w)), Evaluate(o, Group(tasks), base, Begin(w));
            && s.world == e.world && s.ret == e.ret && s.fds == base
            && RunStage(o, t, Start(base, w)).world != Stage(o, t, base, Begin(w)).world
  {
    hide RunTasks;
    hide Evaluate;
    hide Group;
    hide RunStage;
    var t, u := Task(argv, NoShell, [Open(1, path, Truncate)], Or), Task(argv, NoShell, [], Semicolon);
    TwoTasks(o, t, u, base, w);
    StartFollows(base, w);
    ProgramStarts(o, t, base, Begin(w), Start(base, w));
    RunStageAttached(o, t, base, w);
    var st := Stage(o, t, base, Begin(w));
    assert st == State(REDIRECTION_ERROR, NoPipe, w);
    assert Stage(o, u, base, st).world == StageBody(o, u, base, st).1;
    assert |w.trace + [Exec(Texts(argv), base)]| == |w.trace| + 1;
  }

  lemma RunStageAttached(o: Oracle, t: Task, base: FdTable, w: World)
    requires 0 in base && 1 in base && t.token != Pipe
    ensures RunStage(o, t, Start(base, w)).fds == base
  {
    hide RunTask;
    StepAttached(o, t, Start(base, w), base, NoPipe);
    assert Start(base, w).(skip := 0) == Start(base, w);
  }
}

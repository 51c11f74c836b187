/** What a text makes the system start, from end to end: the words as they are, on the table that the redirects mean. */
module ShellPrograms {
  import opened ShellSyntax
  import opened Descriptors
  import opened ShellWorld
  import opened ShellExecutor
  import opened ShellReference
  import opened ShellControl
  import opened ShellWiring
  import opened ShellRefinement
  import opened ShellSystem
  import ShellParser
  import P = ShellPrinter
  import Redirects

  // ----- what redirections mean -----

  /** The table after a redirection that is possible. */
  function MeantOne(t: FdTable, r: P.Redirection): FdTable
  {
    match r
    case ToFile(fd, mode, path) => t[fd := Opened(path, mode)]
    case BothToFile(append, path) =>
      var file := Opened(path, if append then Append else Truncate);
      t[1 := file][2 := file]
    case ToFd(fd, src) => if src in t then t[fd := t[src]] else t
    case BothToFd(fd) => if fd == 2 && 1 in t then t[2 := t[1]] else if 2 in t then t[fd := t[2]] else t
  }

  predicate Possible(t: FdTable, r: P.Redirection, opens: Redirects.Opens)
  {
    match r
    case ToFile(_, mode, path) => opens(path, mode)
    case BothToFile(append, path) => opens(path, if append then Append else Truncate)
    case ToFd(_, src) => src in t
    case BothToFd(fd) => 1 in t && (fd == 2 || 2 in t)
  }

  /** The redirections from left to right. */
  function Meant(t: FdTable, rs: seq<P.Redirection>): FdTable
    decreases |rs|
  {
    if rs == [] then t else Meant(MeantOne(t, rs[0]), rs[1..])
  }

  predicate AllPossible(t: FdTable, rs: seq<P.Redirection>, opens: Redirects.Opens)
    decreases |rs|
  {
    rs == [] || (Possible(t, rs[0], opens) && AllPossible(MeantOne(t, rs[0]), rs[1..], opens))
  }

  lemma {:induction false} RedirFold(t: FdTable, r: P.Redirection, opens: Redirects.Opens)
    ensures var (u, ok) := Redirects.Fold(t, P.RedirOps(r), opens);
            (ok <==> Possible(t, r, opens)) && (ok ==> u == MeantOne(t, r))
  {
    match r
    case ToFile(fd, mode, path) => FoldOne(t, Open(fd, path, mode), opens);
    case ToFd(fd, src) => FoldOne(t, Dup2(src, fd), opens);
    case BothToFd(fd) =>
      Redirects.FoldTwo(t, Dup2(1, fd), Dup2(2, fd), opens);
      assert 1 in t ==> t[fd := t[1]][fd := t[1]] == t[fd := t[1]];
      assert 1 in t && 2 in t ==> t[fd := t[1]][fd := t[2]] == t[fd := t[2]];
    case BothToFile(append, path) =>
      var mode := if append then Append else Truncate;
      var open, ops := Open(1, path, mode), [Close(2), Dup2(1, 2)];
      assert P.RedirOps(r) == [open] + ops;
      FoldOne(t, open, opens);
      Redirects.FoldSplit(t, [open], ops, opens);
      var t1 := t[1 := Opened(path, mode)];
      Redirects.FoldTwo(t1, Close(2), Dup2(1, 2), opens);
      assert (t1 - {2})[2 := t1[1]] == MeantOne(t, r);
  }

  /** The operations of a command do what its redirections mean, and fail exactly when one is not possible. */
  lemma {:induction false} RedirsFold(t: FdTable, rs: seq<P.Redirection>, opens: Redirects.Opens)
    ensures var (u, ok) := Redirects.Fold(t, P.Ops(rs), opens);
            (ok <==> AllPossible(t, rs, opens)) && (ok ==> u == Meant(t, rs))
    decreases |rs|
  {
    hide P.RedirOps;
    if rs != [] {
      RedirFold(t, rs[0], opens);
      Redirects.FoldSplit(t, P.RedirOps(rs[0]), P.Ops(rs[1..]), opens);
      RedirsFold(MeantOne(t, rs[0]), rs[1..], opens);
    }
  }

  // ----- a command alone -----

  lemma {:induction false} TextsOfWords(ws: seq<string>, at: nat)
    ensures Texts(P.Words(ws, at)) == ws
    decreases |ws|
  {
    if ws != [] {
      TextsOfWords(ws[1..], at);
      var first := Word(P.Escape(ws[0]), at, ws[0]);
      assert P.Words(ws, at) == [first] + P.Words(ws[1..], at);
      assert P.Words(ws, at)[1..] == P.Words(ws[1..], at);
      assert ws == [ws[0]] + ws[1..];
    }
  }

  lemma {:induction false} LoneProgram(o: Oracle, t: Task, base: FdTable, w: World)
    requires t.sub.NoShell? && t.token == Semicolon
    ensures var s := RunTasks(o, [t], Start(base, w));
            var trace := w.trace + [Exec(Texts(t.argv), Redirects.Fold(base, t.ops, o.opens(w.trace)).0)];
            s.world == w.(trace := trace) && s.ret == o.exit(trace)
  {
    hide RunTasks;
    OneTask(o, t, base, w);
    var s := Start(base, w);
    var wired := Wire(s, Semicolon);
    assert wired == Wired(base, -1, -1, -1, w.pipes);
    var child := Redirects.Fold(base, t.ops, o.opens(w.trace)).0;
    CloseAllIs(child, -1, -1, -1);
    assert CloseAll(child, CloseList(wired)) == child;
    assert s.(skip := 0) == s && s.world.(pipes := wired.pipes) == w;
    var (ret, w') := RunTask(o, t, base, CloseList(wired), w);
    assert w' == w.(trace := w.trace + [Exec(Texts(t.argv), child)]) && ret == o.exit(w'.trace);
    assert Step(o, t, s).ret == ret && Step(o, t, s).world == w';
  }

  /**
  From text to process: for any words and redirections that can be printed, in any caller, the
  system starts one program, with exactly those words as its arguments, on the caller's table
  as the redirections change it, and returns its status.
  */
  lemma {:induction false} CommandRuns(o: Oracle, words: seq<string>, redirs: seq<P.Redirection>,
                                       env: ShellParser.Env, base: FdTable, w: World)
    requires P.Printable([P.Simple(words, redirs, Semicolon)]) && AllPossible(base, redirs, o.opens(w.trace))
    ensures var trace := w.trace + [Exec(words, Meant(base, redirs))];
            System(o, P.PrintList([P.Simple(words, redirs, Semicolon)]), env, base, w) ==
            (o.exit(trace) % 256, w.(trace := trace))
  {
    hide P.PrintList;
    hide P.Words;
    hide RunTasks;
    hide Texts;
    hide ShellParser.Parse;
    var cs := [P.Simple(words, redirs, Semicolon)];
    var t := Task(P.Words(words, 0), NoShell, P.Ops(redirs), Semicolon);
    P.ParsePrint(cs, env);
    assert P.Trees(cs, 0) == [t] + P.Trees([], 0) == [t] by {
      assert cs[1..] == [];
    }
    assert Truncated([t]) == [t];
    LoneProgram(o, t, base, w);
    TextsOfWords(words, 0);
    RedirsFold(base, redirs, o.opens(w.trace));
  }

  // ----- two commands and a pipe -----

  lemma {:induction false} PipedStep(o: Oracle, t: Task, base: FdTable, st: State, s: ExecState)
    requires Follows(s, base, st) && t.sub.NoShell? && t.ops == [] && t.token != And && t.token != Or
    ensures var s' := Step(o, t, s);
            var trace := st.world.trace + [Exec(Texts(t.argv), StageTable(base, st.input, t.token, st.world.pipes))];
            && s'.world == PipeMade(st.world, t.token).(trace := trace)
            && s'.ret == Reported(t.token, o.exit(trace))
            && Follows(s', base, State(s'.ret, Output(t.token, st.world.pipes), s'.world))
  {
    hide RunTask;
    hide Unwire;
    StepAttached(o, t, s, base, st.input);
    ProgramStarts(o, t, base, st, s);
    PreparedHides(base, st.input, t.token, st.world.pipes);
    hide Prepared;
    hide HiddenAt;
    assert s.(skip := 0) == s;
    assert RunStage(o, t, s) == Step(o, t, s).(skip := 0);
    assert Step(o, t, s).skip == 0;
    hide Wire;
  }

  /** `a | b`: both are started, `a` with the write end of a pipe as output and `b` with its read end as input. */
  lemma {:induction false} PipeRuns(o: Oracle, a: seq<string>, b: seq<string>,
                                    env: ShellParser.Env, base: FdTable, w: World)
    requires 0 in base && 1 in base && P.Printable([P.Simple(a, [], Pipe), P.Simple(b, [], Semicolon)])
    ensures var trace := w.trace + [Exec(a, base[1 := PipeWrite(w.pipes)]), Exec(b, base[0 := PipeRead(w.pipes)])];
            System(o, P.PrintList([P.Simple(a, [], Pipe), P.Simple(b, [], Semicolon)]), env, base, w) ==
            (o.exit(trace) % 256, World(trace, w.pipes + 1))
  {
    hide P.PrintList;
    hide P.Words;
    hide Step;
    hide Texts;
    hide ShellParser.Parse;
    var cs := [P.Simple(a, [], Pipe), P.Simple(b, [], Semicolon)];
    var t, u := Task(P.Words(a, 0), NoShell, [], Pipe), Task(P.Words(b, 0), NoShell, [], Semicolon);
    P.ParsePrint(cs, env);
    assert P.Trees(cs, 0) == [t, u] by {
      assert cs[1..] == [cs[1]] && cs[1..][1..] == [];
      assert P.Trees([cs[1]], 0) == [u] + P.Trees([], 0) == [u];
      assert P.Trees(cs, 0) == [t] + [u];
    }
    var s := Start(base, w);
    assert Truncated([t, u]) == [t, u] && [t, u][1..] == [u] && [u][1..] == [];
    var s1 := Step(o, t, s);
    assert RunTasks(o, [t, u], s) == RunTasks(o, [u], s1);
    assert RunTasks(o, [u], s1) == RunTasks(o, [], Step(o, u, s1)) == Step(o, u, s1);
    TextsOfWords(a, 0);
    TextsOfWords(b, 0);
    StartFollows(base, w);
    PipedStep(o, t, base, Begin(w), s);
    PipedStep(o, u, base, State(s1.ret, FromPipe(w.pipes), s1.world), s1);
    var first, second := Exec(a, base[1 := PipeWrite(w.pipes)]), Exec(b, base[0 := PipeRead(w.pipes)]);
    assert w.trace + [first] + [second] == w.trace + [first, second];
  }

  /** A text that does not parse starts nothing and gives -1. */
  lemma RefusedRunsNothing(o: Oracle, format: string, env: ShellParser.Env, base: FdTable, w: World)
    ensures ShellParser.Parse(format, env).Fail? <==> System(o, format, env, base, w).0 < 0
    ensures ShellParser.Parse(format, env).Fail? ==> System(o, format, env, base, w) == (-1, w)
  {
    hide ShellParser.Parse;
    hide RunTasks;
  }
}

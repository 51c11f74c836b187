/**
A structured evaluator of scripts, written from the shell language (sections 2.7, 2.8.2 and
2.9 of the POSIX.1-2017 Shell Command Language) and independent of the flat loop. A stage of
a pipeline runs in the caller's table with descriptor 0 replaced by the previous pipe and
descriptor 1 by the next one, and its redirects are applied to that. When a redirect fails
the command is not run. An AND-OR list ended by `&` has status 0.
*/
module ShellReference {
  import opened ShellSyntax
  import opened Descriptors
  import opened ShellGrammar
  import opened ShellWorld
  import Redirects

  /** Where the next command reads from: as its caller does, or from the previous stage. */
  datatype Input = NoPipe | FromPipe(id: nat)

  datatype State = State(ret: int, input: Input, world: World)

  /** Section 2.8.2 allows 1 to 125 for a failed redirection. */
  const REDIRECTION_ERROR: int := 1

  /** A list that runs nothing has status 0. */
  function Begin(w: World): State { State(0, NoPipe, w) }

  function Max(a: nat, b: nat): nat { if a < b then b else a }

  /** Nesting of subshells. */
  function Depth(tasks: seq<Task>): nat
    decreases tasks
  {
    if tasks == [] then 0
    else Max(match tasks[0].sub case NoShell => 0 case Shell(ts) => 1 + Depth(ts), Depth(tasks[1..]))
  }

  lemma {:induction false} DepthSplit(a: seq<Task>, b: seq<Task>)
    ensures Depth(a + b) == Max(Depth(a), Depth(b))
    decreases |a|
  {
    if a == [] {
      assert a + b == b;
    } else {
      assert (a + b)[0] == a[0] && (a + b)[1..] == a[1..] + b;
      DepthSplit(a[1..], b);
    }
  }

  lemma DepthFirst(a: AndOr)
    requires a != []
    ensures Depth(Join(a)) == Max(Depth(Join(a[..|a| - 1])), Depth(a[|a| - 1]))
  {
    DepthSplit(Join(a[..|a| - 1]), a[|a| - 1]);
  }

  /** The table of a stage before its redirects. */
  function StageTable(base: FdTable, input: Input, token: Token, pipe: nat): FdTable
  {
    var t := match input case NoPipe => base case FromPipe(id) => base[0 := PipeRead(id)];
    if token == Pipe then t[1 := PipeWrite(pipe)] else t
  }

  /** The table of a stage after its redirects, and whether they all succeeded. */
  function Redirected(o: Oracle, task: Task, base: FdTable, st: State): (FdTable, bool)
  {
    Redirects.Fold(StageTable(base, st.input, task.token, st.world.pipes), task.ops, o.opens(st.world.trace))
  }

  /** Nobody waits for what `&` or `|` ends. */
  predicate Unwaited(token: Token) { token == Background || token == Pipe }

  function Reported(token: Token, status: int): int
  {
    if Unwaited(token) then 0 else status
  }

  function PipeMade(w: World, token: Token): World
  {
    if token == Pipe then w.(pipes := w.pipes + 1) else w
  }

  /** A stage of a pipeline: its program or subshell, and the pipe it leaves for the next. */
  function Stage(o: Oracle, task: Task, base: FdTable, st: State): State
    decreases Depth([task]), 1
  {
    var (status, w) := StageBody(o, task, base, st);
    State(Reported(task.token, status), if task.token == Pipe then FromPipe(st.world.pipes) else NoPipe, w)
  }

  /** The status with which a stage ends and what it did. */
  function StageBody(o: Oracle, task: Task, base: FdTable, st: State): (r: (int, World))
    decreases Depth([task]), 0
  {
    var (child, ok) := Redirected(o, task, base, st);
    var w := PipeMade(st.world, task.token);
    if !ok then (REDIRECTION_ERROR, w)
    else
      match task.sub
      case Shell(tasks) =>
        var s := Evaluate(o, Group(tasks), child, Begin(w));
        (s.ret % 256, s.world)
      case NoShell =>
        var trace := w.trace + [Exec(Texts(task.argv), child)];
        (o.exit(trace), w.(trace := trace))
  }

  /** Every command of a pipeline, each reading from the one before. */
  function EvalPipeline(o: Oracle, p: Pipeline, base: FdTable, st: State): State
    decreases Depth(p), 2, |p|
  {
    if p == [] then st
    else
      DepthSplit([p[0]], p[1..]);
      assert [p[0]] + p[1..] == p;
      EvalPipeline(o, p[1..], base, Stage(o, p[0], base, st))
  }

  /** `&&` goes on after status 0, `||` after any other. */
  predicate GoesOn(ret: int, token: Token) { ret == 0 <==> token == And }

  /** `&&` and `||` associate to the left and have equal precedence. */
  function EvalAndOr(o: Oracle, a: AndOr, base: FdTable, st: State): State
    decreases Depth(Join(a)), 3, |a|
  {
    if a == [] then st
    else
      var n := |a| - 1;
      DepthFirst(a);
      var left := EvalAndOr(o, a[..n], base, st);
      if n == 0 || GoesOn(left.ret, End(a[n - 1])) then EvalPipeline(o, a[n], base, left)
      else left
  }

  /** `&` ends the whole AND-OR list, also when its last command is skipped. */
  function Ended(a: AndOr, st: State): State
  {
    if EndOfAndOr(a) == Background then st.(ret := 0) else st
  }

  /** One AND-OR list after another. */
  function Evaluate(o: Oracle, s: Script, base: FdTable, st: State): State
    decreases Depth(Flatten(s)), 4, |s|
  {
    if s == [] then st
    else
      DepthSplit(Join(s[0]), Flatten(s[1..]));
      Evaluate(o, s[1..], base, Ended(s[0], EvalAndOr(o, s[0], base, st)))
  }

  // ----- runs in which nothing goes wrong that the loop treats differently -----

  /**
  Along the evaluator's run: the redirects of every program that is reached succeed; and where
  the status of a list is `read`, the list is not empty, a subshell ended by `&` or `|` that
  gives that status has status 0, and so has what is left of an AND-OR list ended by `&` when
  its last command is skipped. Redirects of subshells may fail, and statuses that nothing
  reads may be any.
  */
  ghost predicate RegularStage(o: Oracle, task: Task, base: FdTable, st: State, read: bool)
    decreases Depth([task]), 1
  {
    var (child, ok) := Redirected(o, task, base, st);
    match task.sub
    case NoShell => ok
    case Shell(tasks) =>
      && (ok ==> RegularList(o, tasks, child, PipeMade(st.world, task.token), read))
      && (read && Unwaited(task.token) ==> StageBody(o, task, base, st).0 == 0)
  }

  /** Of a pipeline only the status of the last command is read. */
  ghost predicate RegularPipeline(o: Oracle, p: Pipeline, base: FdTable, st: State, read: bool)
    decreases Depth(p), 2, |p|
  {
    p == [] ||
    (DepthSplit([p[0]], p[1..]);
     assert [p[0]] + p[1..] == p;
     && RegularStage(o, p[0], base, st, read && |p| == 1)
     && RegularPipeline(o, p[1..], base, Stage(o, p[0], base, st), read))
  }

  /** `&&` and `||` read the status before them. */
  ghost predicate RegularAndOr(o: Oracle, a: AndOr, base: FdTable, st: State, read: bool)
    decreases Depth(Join(a)), 3, |a|
  {
    a == [] ||
    (var n := |a| - 1;
     DepthFirst(a);
     var left := EvalAndOr(o, a[..n], base, st);
     && RegularAndOr(o, a[..n], base, st, true)
     && (n == 0 || GoesOn(left.ret, End(a[n - 1])) ==> RegularPipeline(o, a[n], base, left, read)))
  }

  /** The status of a list is that of its last AND-OR list. */
  ghost predicate RegularScript(o: Oracle, s: Script, base: FdTable, st: State, read: bool)
    decreases Depth(Flatten(s)), 4, |s|
  {
    s == [] ||
    (DepthSplit(Join(s[0]), Flatten(s[1..]));
     var left := EvalAndOr(o, s[0], base, st);
     && RegularAndOr(o, s[0], base, st, read && |s| == 1)
     && (read && |s| == 1 && EndOfAndOr(s[0]) == Background ==> left.ret == 0)
     && RegularScript(o, s[1..], base, Ended(s[0], left), read))
  }

  ghost predicate RegularList(o: Oracle, tasks: seq<Task>, base: FdTable, w: World, read: bool)
    decreases Depth(tasks), 5
  {
    (read ==> tasks != []) && RegularScript(o, Group(tasks), base, Begin(w), read)
  }
}

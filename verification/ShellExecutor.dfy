/**
The flat interpreter of a task list: one pass, an integer `skip` for short-circuiting, and
descriptors 0 and 1 of the calling process rewired around every stage of a pipeline.
*/
module ShellExecutor {
  import opened ShellSyntax
  import opened Descriptors
  import opened ShellWorld
  import Redirects

  datatype ExecState = ExecState(ret: int, skip: int, pipefd: int, fds: FdTable, world: World)

  /** The calling process ready to start a stage: its table and what to close in the child and restore after. */
  datatype Wired = Wired(fds: FdTable, oldStdin: int, oldStdout: int, pipefd: int, pipes: nat)

  function CloseAll(t: FdTable, fds: seq<int>): FdTable
  {
    if fds == [] then t else CloseAll(CloseCall(t, fds[0]), fds[1..])
  }

  function Truncated(tasks: seq<Task>): seq<Task>
  {
    if |tasks| > MAX_NUM_CMDS then tasks[..MAX_NUM_CMDS] else tasks
  }

  /** `dup`, `close`, `dup2`, `close`: put `fd` in the place of `std`. */
  function Replace(t: FdTable, std: nat, fd: int): (r: (FdTable, int))
  {
    var (t1, saved) := DupCall(t, std);
    (CloseCall(Dup2Call(CloseCall(t1, std), fd, std).0, fd), saved)
  }

  function Restore(t: FdTable, std: nat, saved: int): FdTable
  {
    if saved != -1 then CloseCall(Dup2Call(CloseCall(t, std), saved, std).0, saved) else t
  }

  function Wire(s: ExecState, token: Token): Wired
  {
    var (t1, oldStdin) := if s.pipefd != -1 then Replace(s.fds, 0, s.pipefd) else (s.fds, -1);
    if token == Pipe then
      var (t2, rd, wr) := PipeCall(t1, s.world.pipes);
      var (t3, oldStdout) := Replace(t2, 1, wr);
      Wired(t3, oldStdin, oldStdout, rd, s.world.pipes + 1)
    else
      Wired(t1, oldStdin, -1, -1, s.world.pipes)
  }

  /** The three descriptors that the child closes after its redirects. */
  function CloseList(w: Wired): seq<int>
  {
    [w.oldStdin, w.oldStdout, w.pipefd]
  }

  function Unwire(w: Wired): FdTable
  {
    Restore(Restore(w.fds, 0, w.oldStdin), 1, w.oldStdout)
  }

  /**
  `execute_task`: a subshell is always waited for and its status is truncated to a byte; a
  program is started even when its redirects failed, and then without closing `close`.
  */
  function RunTask(o: Oracle, task: Task, fds: FdTable, close: seq<int>, w: World): (r: (int, World))
    decreases task, 0
  {
    var (child, ok) := Redirects.Fold(fds, task.ops, o.opens(w.trace));
    match task.sub
    case Shell(tasks) =>
      if ok then
        var s := RunTasks(o, Truncated(tasks), Start(CloseAll(child, close), w));
        (s.ret % 256, s.world)
      else (255, w)
    case NoShell =>
      var trace := w.trace + [Exec(Texts(task.argv), if ok then CloseAll(child, close) else child)];
      (if task.token == Background || task.token == Pipe then 0 else o.exit(trace), w.(trace := trace))
  }

  function Start(fds: FdTable, w: World): ExecState
  {
    ExecState(-1, 0, -1, fds, w)
  }

  /** One iteration of the loop. */
  function Step(o: Oracle, task: Task, s: ExecState): ExecState
    decreases task, 1
  {
    var s1 :=
      if s.skip == 0 then
        var wired := Wire(s, task.token);
        var (ret, w) := RunTask(o, task, wired.fds, CloseList(wired), s.world.(pipes := wired.pipes));
        ExecState(ret, 0, wired.pipefd, Unwire(wired), w)
      else
        s.(skip := SkipOver(s.skip, task.token));
    s1.(skip := s1.skip + SkipNext(s1.ret, task.token))
  }

  /** The counter after a skipped task: incremented for a pipe, then decremented when positive. */
  function SkipOver(skip: int, token: Token): int
  {
    var up := if token == Pipe then skip + 1 else skip;
    if up > 0 then up - 1 else up
  }

  function SkipNext(ret: int, token: Token): nat
  {
    if (ret == 0 && token == Or) || (ret != 0 && token == And) then 1 else 0
  }

  /** The loop over a list. */
  function RunTasks(o: Oracle, tasks: seq<Task>, s: ExecState): ExecState
    decreases tasks
  {
    if tasks == [] then s else RunTasks(o, tasks[1..], Step(o, tasks[0], s))
  }

  lemma {:induction false} RunTasksSplit(o: Oracle, a: seq<Task>, b: seq<Task>, s: ExecState)
    ensures RunTasks(o, a + b, s) == RunTasks(o, b, RunTasks(o, a, s))
    decreases |a|
  {
    if a == [] {
      assert a + b == b;
    } else {
      assert (a + b)[0] == a[0] && (a + b)[1..] == a[1..] + b;
      RunTasksSplit(o, a[1..], b, Step(o, a[0], s));
    }
  }

  method ExecuteTask(o: Oracle, task: Task, fds: FdTable, close: seq<int>, w: World) returns (ret: int, w': World)
    requires |close| == 3
    ensures (ret, w') == RunTask(o, task, fds, close, w)
    decreases task, 0
  {
    var applied := Redirects.Fold(fds, task.ops, o.opens(w.trace));
    var child := applied.0;
    if applied.1 {
      ghost var start := child;
      var i := 0;
      while i < 3
        invariant 0 <= i <= 3
        invariant CloseAll(start, close) == CloseAll(child, close[i..])
      {
        child := CloseCall(child, close[i]);
        i := i + 1;
      }
    }
    if task.sub.Shell? {
      ret, w' := -1, w;
      if applied.1 {
        var final: FdTable;
        ret, final, w' := ExecuteTaskList(o, task.sub.tasks, child, w);
      }
      ret := ret % 256;
    } else {
      w' := w.(trace := w.trace + [Exec(Texts(task.argv), child)]);
      if task.token == Background || task.token == Pipe {
        ret := 0;
      } else {
        ret := o.exit(w'.trace);
      }
    }
  }

  method ExecuteTaskList(o: Oracle, tasks: seq<Task>, fds: FdTable, w: World)
    returns (ret: int, fds': FdTable, w': World)
    ensures var s := RunTasks(o, Truncated(tasks), Start(fds, w));
            ret == s.ret && fds' == s.fds && w' == s.world
    decreases tasks
  {
    ret, fds', w' := -1, fds, w;
    var skip: int, pipefd: int := 0, -1;
    var n := 0;
    ghost var list := Truncated(tasks);
    while n < MAX_NUM_CMDS && n < |tasks|
      invariant 0 <= n <= |list|
      invariant skip == 0 || skip == 1
      invariant RunTasks(o, list, Start(fds, w)) ==
                RunTasks(o, list[n..], ExecState(ret, skip, pipefd, fds', w'))
    {
      var task := tasks[n];
      ghost var before := ExecState(ret, skip, pipefd, fds', w');
      assert list[n..][0] == task && list[n..][1..] == list[n + 1..];
      if skip == 0 {
        var oldStdin: int := -1;
        if pipefd != -1 {
          var d := DupCall(fds', 0);
          oldStdin := d.1;
          fds' := CloseCall(d.0, 0);
          fds' := Dup2Call(fds', pipefd, 0).0;
          fds' := CloseCall(fds', pipefd);
          pipefd := -1;
        }
        var oldStdout: int, readEnd: int := -1, -1;
        if task.token == Pipe {
          var p := PipeCall(fds', w'.pipes);
          var d := DupCall(p.0, 1);
          oldStdout := d.1;
          fds' := CloseCall(d.0, 1);
          fds' := Dup2Call(fds', p.2, 1).0;
          fds' := CloseCall(fds', p.2);
          readEnd, pipefd := p.1, p.1;
          w' := w'.(pipes := w'.pipes + 1);
        }
        assert Wire(before, task.token) == Wired(fds', oldStdin, oldStdout, pipefd, w'.pipes);
        ret, w' := ExecuteTask(o, task, fds', [oldStdin, oldStdout, readEnd], w');
        if oldStdin != -1 {
          fds' := CloseCall(fds', 0);
          fds' := Dup2Call(fds', oldStdin, 0).0;
          fds' := CloseCall(fds', oldStdin);
        }
        if oldStdout != -1 {
          fds' := CloseCall(fds', 1);
          fds' := Dup2Call(fds', oldStdout, 1).0;
          fds' := CloseCall(fds', oldStdout);
        }
      } else if task.token == Pipe {
        skip := skip + 1;
      }
      if skip > 0 {
        skip := skip - 1;
      }
      if ret == 0 && task.token == Or {
        skip := skip + 1;
      }
      if ret != 0 && task.token == And {
        skip := skip + 1;
      }
      assert Step(o, task, before) == ExecState(ret, skip, pipefd, fds', w');
      n := n + 1;
    }
    assert list[n..] == [];
  }
}

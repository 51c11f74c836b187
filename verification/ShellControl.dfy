/**
The control flow of the flat loop, for every task list: its skip counter makes it run the
list's script stage by stage, with `&&` and `||` associating to the left.
*/
module ShellControl {
  import opened ShellSyntax
  import opened ShellGrammar
  import opened ShellExecutor
  import opened ShellWorld

  /** One iteration that is not skipped, without its effect on the counter. */
  function RunStage(o: Oracle, task: Task, s: ExecState): ExecState
  {
    Step(o, task, s.(skip := 0)).(skip := 0)
  }

  function RunPipeline(o: Oracle, p: Pipeline, s: ExecState): ExecState
  {
    if p == [] then s else RunPipeline(o, p[1..], RunStage(o, p[0], s))
  }

  function RunAndOr(o: Oracle, a: AndOr, s: ExecState): ExecState
  {
    if a == [] then s
    else
      var n := |a| - 1;
      var left := RunAndOr(o, a[..n], s);
      if n == 0 || (left.ret == 0 <==> End(a[n - 1]) == And) then RunPipeline(o, a[n], left) else left
  }

  function RunScript(o: Oracle, c: Script, s: ExecState): ExecState
  {
    if c == [] then s else RunScript(o, c[1..], RunAndOr(o, c[0], s))
  }

  lemma {:induction false} PipelineRuns(o: Oracle, p: Pipeline, s: ExecState)
    requires IsPipeline(p) && s.skip == 0
    ensures var s' := RunPipeline(o, p, s);
            RunTasks(o, p, s) == s'.(skip := SkipNext(s'.ret, End(p))) && s'.skip == 0
    decreases |p|
  {
    hide RunTask;
    hide Wire;
    hide Unwire;
    if |p| > 1 {
      assert RunStage(o, p[0], s) == Step(o, p[0], s);
      PipelineRuns(o, p[1..], RunStage(o, p[0], s));
    } else {
      assert p[1..] == [];
    }
  }

  /** A pipeline met while skipping is skipped as a whole and changes nothing else. */
  lemma {:induction false} PipelineSkipped(o: Oracle, p: Pipeline, s: ExecState)
    requires IsPipeline(p) && s.skip == 1
    ensures RunTasks(o, p, s) == s.(skip := if End(p) == Pipe then 1 else SkipNext(s.ret, End(p)))
    decreases |p|
  {
    if |p| > 1 {
      assert Step(o, p[0], s) == s;
      PipelineSkipped(o, p[1..], s);
    } else {
      assert p[1..] == [];
    }
  }

  lemma {:induction false} AndOrRuns(o: Oracle, a: AndOr, s: ExecState)
    requires IsAndOr(a) && s.skip == 0
    ensures var s', t := RunAndOr(o, a, s), RunTasks(o, Join(a), s);
            && t.(skip := 0) == s' && s'.skip == 0
            && (EndOfAndOr(a) != Pipe ==> t.skip == SkipNext(s'.ret, EndOfAndOr(a)))
    decreases |a|
  {
    hide RunPipeline;
    hide Step;
    var n := |a| - 1;
    RunTasksSplit(o, Join(a[..n]), a[n], s);
    if n == 0 {
      PipelineRuns(o, a[0], s);
    } else {
      AndOrRuns(o, a[..n], s);
      var mid := RunTasks(o, Join(a[..n]), s);
      if mid.skip == 0 {
        PipelineRuns(o, a[n], mid);
      } else {
        PipelineSkipped(o, a[n], mid);
      }
    }
  }

  lemma {:induction false} ScriptRuns(o: Oracle, c: Script, s: ExecState)
    requires IsScript(c) && s.skip == 0
    ensures RunTasks(o, Flatten(c), s).(skip := 0) == RunScript(o, c, s)
    decreases |c|
  {
    hide RunAndOr;
    hide Step;
    if c != [] {
      AndOrRuns(o, c[0], s);
      RunTasksSplit(o, Join(c[0]), Flatten(c[1..]), s);
      if |c| > 1 {
        ScriptRuns(o, c[1..], RunAndOr(o, c[0], s));
      } else {
        assert c[1..] == [];
      }
    }
  }

  /** The loop is the structured run of the list's script, for every list, state and oracle. */
  lemma LoopIsStructured(o: Oracle, tasks: seq<Task>, s: ExecState)
    requires s.skip == 0
    ensures RunTasks(o, tasks, s).(skip := 0) == RunScript(o, Group(tasks), s)
  {
    ScriptRuns(o, Group(tasks), s);
  }

  /** At every loop head: `skip` is 0 or 1, and nothing is pending while skipping. */
  ghost predicate LoopHead(s: ExecState)
  {
    0 <= s.skip <= 1 && (s.skip == 1 ==> s.pipefd == -1)
  }

  lemma {:induction false} LoopHeads(o: Oracle, tasks: seq<Task>, s: ExecState)
    requires LoopHead(s)
    ensures LoopHead(RunTasks(o, tasks, s))
    ensures tasks != [] && tasks[|tasks| - 1].token != Pipe ==> RunTasks(o, tasks, s).pipefd == -1
    decreases |tasks|
  {
    if tasks != [] {
      LoopHeads(o, tasks[1..], Step(o, tasks[0], s));
    }
  }

  // ----- lists ended by `&` -----

  lemma {:induction false} LastStage(o: Oracle, p: Pipeline, s: ExecState)
    requires p != []
    ensures var n := |p| - 1;
            RunPipeline(o, p, s) == RunStage(o, p[n], RunPipeline(o, p[..n], s))
    decreases |p|
  {
    hide RunStage;
    var n := |p| - 1;
    if n == 0 {
      assert p[..0] == [] && p[1..] == [];
    } else {
      LastStage(o, p[1..], RunStage(o, p[0], s));
      assert p[1..][..n - 1] == p[..n][1..] && p[1..][n - 1] == p[n] && p[..n][0] == p[0];
    }
  }

  lemma {:induction false} BackgroundProgram(o: Oracle, task: Task, s: ExecState)
    requires task.sub.NoShell? && task.token == Background
    ensures RunStage(o, task, s).ret == 0
  {
    hide Wire;
    hide Unwire;
    var s0 := s.(skip := 0);
    var w := Wire(s0, task.token);
    assert RunTask(o, task, w.fds, CloseList(w), s0.world.(pipes := w.pipes)).0 == 0;
    assert Step(o, task, s0).ret == 0;
  }

  /**
  The language gives an AND-OR list ended by `&` status 0. The loop's is another exactly when
  its last pipeline is skipped after `&&`, or ends in a subshell with a status other than 0.
  */
  lemma {:induction false} BackgroundStatusIff(o: Oracle, a: AndOr, s: ExecState)
    requires IsAndOr(a) && EndOfAndOr(a) == Background
    ensures var n := |a| - 1;
            var left, last := RunAndOr(o, a[..n], s), a[n][|a[n]| - 1];
            var skipped := n > 0 && (left.ret == 0 <==> End(a[n - 1]) != And);
            RunAndOr(o, a, s).ret != 0 <==>
            if skipped then End(a[n - 1]) == And
            else last.sub.Shell? && RunStage(o, last, RunPipeline(o, a[n][..|a[n]| - 1], left)).ret != 0
  {
    hide RunStage;
    var n := |a| - 1;
    var left, last := RunAndOr(o, a[..n], s), a[n][|a[n]| - 1];
    LastStage(o, a[n], left);
    hide RunPipeline;
    if last.sub.NoShell? {
      BackgroundProgram(o, last, RunPipeline(o, a[n][..|a[n]| - 1], left));
    }
  }
}

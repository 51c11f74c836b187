/**
The descriptors that the loop keeps for itself while a stage of a pipeline runs: which ones
they are, what they hold, that they are given up afterwards, and what they do to redirects.
*/
module ShellWiring {
  import opened ShellSyntax
  import opened Descriptors
  import opened ShellWorld
  import opened ShellExecutor
  import opened ShellReference
  import Redirects

  /** The descriptor that is lowest but `n` among those not open. */
  function Spare(open: set<nat>, n: nat): (fd: nat)
    ensures fd !in open
    decreases n
  {
    var fd := LowestOutside(open);
    if n == 0 then fd else Spare(open + {fd}, n - 1)
  }

  lemma Spares(open: set<nat>)
    ensures var a, b, c, d := Spare(open, 0), Spare(open, 1), Spare(open, 2), Spare(open, 3);
            && a == LowestOutside(open) && b == LowestOutside(open + {a})
            && c == LowestOutside(open + {a} + {b}) && d == LowestOutside(open + {a} + {b} + {c})
            && a < b < c < d
  {
    var a := LowestOutside(open);
    var b := LowestOutside(open + {a});
    var c := LowestOutside(open + {a} + {b});
    assert Spare(open, 2) == Spare(open + {a}, 1) == Spare(open + {a} + {b}, 0);
    assert Spare(open, 3) == Spare(open + {a}, 2) == Spare(open + {a} + {b}, 1);
    assert b !in open + {a} && c !in open + {a} + {b};
  }

  lemma LowestIs(open: set<nat>, n: nat)
    requires n !in open && forall k: nat :: k < n ==> k in open
    ensures LowestOutside(open) == n
  {
    assert LowestOutside(open) > n ==> n in open;
  }

  /**
  The descriptors that a stage must not see, by the caller's open descriptors and the place
  of the stage: after a pipe the saved input; before one its read end and the saved output.
  */
  function HiddenAt(open: set<nat>, piped: bool, token: Token): (hidden: set<nat>)
    ensures hidden !! open
    ensures hidden == {} <==> !piped && token != Pipe
  {
    (if piped then {Spare(open, 1)} else {}) +
    (if token == Pipe then {Spare(open, 0), Spare(open, if piped then 3 else 2)} else {})
  }

  /** The caller's table between two iterations. */
  function Held(base: FdTable, input: Input): FdTable
  {
    match input
    case NoPipe => base
    case FromPipe(id) => base[Spare(base.Keys, 0) := PipeRead(id)]
  }

  ghost predicate Attached(s: ExecState, base: FdTable, input: Input)
  {
    && 0 in base && 1 in base && s.fds == Held(base, input)
    && s.pipefd == (if input.FromPipe? then Spare(base.Keys, 0) else -1)
  }

  /** The caller's table while a stage runs: the stage's own, and in hidden places what is restored later. */
  function Prepared(base: FdTable, input: Input, token: Token, pipe: nat): FdTable
    requires 0 in base && 1 in base
  {
    var t := StageTable(base, input, token, pipe);
    var t1 := if input.FromPipe? then t[Spare(base.Keys, 1) := base[0]] else t;
    if token == Pipe then
      t1[Spare(base.Keys, 0) := PipeRead(pipe)][Spare(base.Keys, if input.FromPipe? then 3 else 2) := base[1]]
    else t1
  }

  // ----- wiring and unwiring -----

  lemma {:induction false} ReplaceMeaning(t: FdTable, std: nat, fd: nat)
    requires std in t && fd in t && std != fd
    ensures var saved := LowestFree(t);
            Replace(t, std, fd) == ((t - {fd})[std := t[fd]][saved := t[std]], saved)
  {
    assert Replace(t, std, fd).0 == (t - {fd})[std := t[fd]][LowestFree(t) := t[std]];
  }

  lemma {:induction false} RestoreMeaning(t: FdTable, std: nat, saved: nat)
    requires saved in t && std != saved
    ensures Restore(t, std, saved) == (t - {saved})[std := t[saved]]
  {
    assert Restore(t, std, saved) == (t - {saved})[std := t[saved]];
  }

  lemma {:induction false} WireInput(base: FdTable, id: nat)
    requires 0 in base
    ensures var a, b := Spare(base.Keys, 0), Spare(base.Keys, 1);
            Replace(base[a := PipeRead(id)], 0, a) == (base[0 := PipeRead(id)][b := base[0]], b)
  {
    Spares(base.Keys);
    var a := Spare(base.Keys, 0);
    var h := base[a := PipeRead(id)];
    assert h.Keys == base.Keys + {a};
    ReplaceMeaning(h, 0, a);
    assert (h - {a})[0 := h[a]] == base[0 := PipeRead(id)];
  }

  lemma {:induction false} WireOutput(t: FdTable, id: nat, rd: nat, wr: nat, saved: nat)
    requires 1 in t && rd == LowestOutside(t.Keys)
    requires wr == LowestOutside(t.Keys + {rd}) && saved == LowestOutside(t.Keys + {rd} + {wr})
    ensures var p := PipeCall(t, id);
            && p.1 == rd && p.2 == wr
            && Replace(p.0, 1, wr) == (t[1 := PipeWrite(id)][rd := PipeRead(id)][saved := t[1]], saved)
  {
    var p := PipeCall(t, id);
    assert t[rd := PipeRead(id)].Keys == t.Keys + {rd} && p.0.Keys == t.Keys + {rd} + {wr};
    ReplaceMeaning(p.0, 1, wr);
    assert p.0 - {wr} == t[rd := PipeRead(id)];
    assert t[rd := PipeRead(id)][1 := PipeWrite(id)] == t[1 := PipeWrite(id)][rd := PipeRead(id)];
  }

  /** The exact table and numbers with which every stage is started, for any caller. */
  lemma {:induction false} WireMeaning(s: ExecState, base: FdTable, input: Input, token: Token)
    requires Attached(s, base, input)
    ensures Wire(s, token) == Wired(
              Prepared(base, input, token, s.world.pipes),
              if input.FromPipe? then Spare(base.Keys, 1) else -1,
              if token == Pipe then Spare(base.Keys, if input.FromPipe? then 3 else 2) else -1,
              if token == Pipe then Spare(base.Keys, 0) else -1,
              PipeMade(s.world, token).pipes)
  {
    hide Replace;
    hide Spare;
    Spares(base.Keys);
    var open := base.Keys;
    var a, b, c, d, id := Spare(open, 0), Spare(open, 1), Spare(open, 2), Spare(open, 3), s.world.pipes;
    var t := base;
    if input.FromPipe? {
      WireInput(base, input.id);
      t := base[0 := PipeRead(input.id)][b := base[0]];
      assert t.Keys == open + {b};
      if token == Pipe {
        LowestIs(t.Keys, a);
        assert t.Keys + {a} == open + {a} + {b};
        WireOutput(t, id, a, c, d);
        assert t[1 := PipeWrite(id)] == base[0 := PipeRead(input.id)][1 := PipeWrite(id)][b := base[0]];
      }
    } else if token == Pipe {
      WireOutput(t, id, a, b, c);
    }
  }

  lemma {:induction false} PreparedHides(base: FdTable, input: Input, token: Token, pipe: nat)
    requires 0 in base && 1 in base
    ensures var hidden := HiddenAt(base.Keys, input.FromPipe?, token);
            var t := Prepared(base, input, token, pipe);
            t - hidden == StageTable(base, input, token, pipe) && hidden <= t.Keys
  {
    hide Spare;
    Spares(base.Keys);
    var hidden := HiddenAt(base.Keys, input.FromPipe?, token);
    assert Prepared(base, input, token, pipe) - hidden == StageTable(base, input, token, pipe);
  }

  function Output(token: Token, pipe: nat): Input
  {
    if token == Pipe then FromPipe(pipe) else NoPipe
  }

  /** After the stage the caller's table is as at entry plus at most one pending read end. */
  lemma {:induction false} UnwireMeaning(s: ExecState, base: FdTable, input: Input, token: Token)
    requires Attached(s, base, input)
    ensures Unwire(Wire(s, token)) == Held(base, Output(token, s.world.pipes))
  {
    hide Wire;
    hide Spare;
    Spares(base.Keys);
    WireMeaning(s, base, input, token);
    var w := Wire(s, token);
    if w.oldStdin >= 0 {
      RestoreMeaning(w.fds, 0, w.oldStdin);
    }
    var t := Restore(w.fds, 0, w.oldStdin);
    if w.oldStdout >= 0 {
      RestoreMeaning(t, 1, w.oldStdout);
    }
    assert Unwire(w) == Held(base, Output(token, s.world.pipes));
  }

  lemma {:induction false} StepAttached(o: Oracle, task: Task, s: ExecState, base: FdTable, input: Input)
    requires Attached(s, base, input) && s.skip == 0
    ensures Attached(Step(o, task, s), base, Output(task.token, s.world.pipes))
  {
    hide RunTask;
    WireMeaning(s, base, input, task.token);
    UnwireMeaning(s, base, input, task.token);
    hide Wire;
    hide Unwire;
  }

  /**
  Every iteration, of any list whatever its redirects, leaves the caller's descriptor table
  as at entry plus at most one pending read end.
  */
  lemma {:induction false} CallerTable(o: Oracle, tasks: seq<Task>, base: FdTable, input: Input, s: ExecState)
    returns (input': Input)
    requires Attached(s, base, input)
    ensures Attached(RunTasks(o, tasks, s), base, input')
    decreases |tasks|
  {
    input' := input;
    if tasks != [] {
      if s.skip == 0 {
        StepAttached(o, tasks[0], s, base, input);
        input' := Output(tasks[0].token, s.world.pipes);
      }
      input' := CallerTable(o, tasks[1..], base, input', Step(o, tasks[0], s));
    }
  }

  /** A stage before `|` writes to the pipe that the next task, always run, reads from. */
  lemma {:induction false} HandOver(o: Oracle, a: Task, b: Task, base: FdTable, input: Input, s: ExecState)
    requires Attached(s, base, input) && s.skip == 0 && a.token == Pipe
    ensures var s' := Step(o, a, s);
            var wa, wb := Wire(s, a.token), Wire(s', b.token);
            && s'.skip == 0
            && 1 in wa.fds && wa.fds[1] == PipeWrite(s.world.pipes)
            && 0 in wb.fds && wb.fds[0] == PipeRead(s.world.pipes)
  {
    hide RunTask;
    hide Unwire;
    StepAttached(o, a, s, base, input);
    WireMeaning(s, base, input, a.token);
    WireMeaning(Step(o, a, s), base, FromPipe(s.world.pipes), b.token);
    hide Wire;
  }

  // ----- redirects and hidden descriptors -----

  /** Hidden descriptors that no redirect names pass through untouched, and change nothing else. */
  lemma {:induction false} FoldHides(t: FdTable, hidden: set<nat>, ops: seq<FdOp>, opens: Redirects.Opens)
    requires Avoids(ops, hidden)
    ensures var (u, ok) := Redirects.Fold(t, ops, opens);
            Redirects.Fold(t - hidden, ops, opens) == (u - hidden, ok)
    decreases |ops|
  {
    if ops != [] {
      var (t1, ok1) := Redirects.Effect(t, ops[0], opens);
      assert ops[0] in ops;
      assert Redirects.Effect(t - hidden, ops[0], opens) == (t1 - hidden, ok1) by {
        assert Redirects.Effect(t - hidden, ops[0], opens).0 == t1 - hidden;
      }
      if ok1 {
        FoldHides(t1, hidden, ops[1..], opens);
      }
    }
  }

  lemma {:induction false} TargetsFirst(ops: seq<FdOp>)
    requires ops != []
    ensures Targets(ops) == (if ops[0].fd >= 0 then {ops[0].fd as nat} else {}) + Targets(ops[1..])
  {
    assert forall op :: op in ops <==> op == ops[0] || op in ops[1..];
  }

  /** Redirects that all succeed leave open what was open, and what they name as target, and no more. */
  lemma {:induction false} FoldKeys(t: FdTable, ops: seq<FdOp>, opens: Redirects.Opens)
    requires PairedCloses(ops)
    ensures var (u, ok) := Redirects.Fold(t, ops, opens);
            ok ==> u.Keys == t.Keys + Targets(ops)
    decreases |ops|
  {
    hide Targets;
    if ops != [] {
      var (t1, ok1) := Redirects.Effect(t, ops[0], opens);
      TargetsFirst(ops);
      if ops[0].Close? {
        var rest := ops[1..];
        assert rest[0] == ops[1] && rest[1..] == ops[2..];
        TargetsFirst(rest);
        FoldKeys(Redirects.Effect(t1, rest[0], opens).0, ops[2..], opens);
      } else if ok1 {
        FoldKeys(t1, ops[1..], opens);
      }
    } else {
      NoTargets();
    }
  }

  lemma NoTargets()
    ensures Targets([]) == {}
  {
  }

  /** Even redirects of which one fails close nothing for good. */
  lemma {:induction false} FoldKeeps(t: FdTable, ops: seq<FdOp>, opens: Redirects.Opens)
    requires PairedCloses(ops) && 1 in t
    ensures t.Keys <= Redirects.Fold(t, ops, opens).0.Keys
    decreases |ops|
  {
    if ops != [] {
      var (t1, ok1) := Redirects.Effect(t, ops[0], opens);
      if ops[0].Close? {
        assert ops[1..][0] == ops[1] && ops[1..][1..] == ops[2..];
        FoldKeeps(Redirects.Effect(t1, ops[1], opens).0, ops[2..], opens);
      } else if ok1 {
        FoldKeeps(t1, ops[1..], opens);
      }
    }
  }

  /** What succeeds in a table succeeds in a larger one, with the larger result. */
  lemma {:induction false} FoldMonotone(small: FdTable, t: FdTable, ops: seq<FdOp>, opens: Redirects.Opens)
    requires small.Items <= t.Items && Redirects.Fold(small, ops, opens).1
    ensures var (u, ok) := Redirects.Fold(t, ops, opens);
            ok && Redirects.Fold(small, ops, opens).0.Items <= u.Items
    decreases |ops|
  {
    if ops != [] {
      var a, b := Redirects.Effect(small, ops[0], opens), Redirects.Effect(t, ops[0], opens);
      SubmapStep(small, t, ops[0], opens);
      FoldMonotone(a.0, b.0, ops[1..], opens);
    }
  }

  lemma {:induction false} SubmapStep(small: FdTable, t: FdTable, op: FdOp, opens: Redirects.Opens)
    requires small.Items <= t.Items && Redirects.Effect(small, op, opens).1
    ensures Redirects.Effect(t, op, opens).1
    ensures Redirects.Effect(small, op, opens).0.Items <= Redirects.Effect(t, op, opens).0.Items
  {
    forall k | k in small
      ensures k in t && t[k] == small[k]
    {
      assert (k, small[k]) in small.Items;
    }
    var a, b := Redirects.Effect(small, op, opens), Redirects.Effect(t, op, opens);
    forall k | k in a.0
      ensures k in b.0 && b.0[k] == a.0[k]
    {
    }
  }

  /** A descriptor that is neither open nor a target cannot be copied. */
  lemma {:induction false} MissingSource(t: FdTable, ops: seq<FdOp>, opens: Redirects.Opens, src: nat)
    requires src !in t && src !in Targets(ops)
    requires exists op :: op in ops && op.Dup2? && op.src == src
    ensures !Redirects.Fold(t, ops, opens).1
    decreases |ops|
  {
    var op :| op in ops && op.Dup2? && op.src == src;
    var (t1, ok1) := Redirects.Effect(t, ops[0], opens);
    assert ops[0] in ops;
    if ok1 && op != ops[0] {
      assert op in ops[1..];
      MissingSource(t1, ops[1..], opens, src);
    }
  }

  /**
  The exact condition: the redirects give a stage what they would give it without the hidden
  descriptors if and only if they all succeed and name none of them, as target or as source.
  */
  lemma {:induction false} HiddenIff(t: FdTable, hidden: set<nat>, ops: seq<FdOp>, opens: Redirects.Opens)
    requires PairedCloses(ops) && hidden <= t.Keys
    ensures var (u, ok) := Redirects.Fold(t, ops, opens);
            Redirects.Fold(t - hidden, ops, opens) == (u - hidden, true) <==> ok && Avoids(ops, hidden)
  {
    if Avoids(ops, hidden) {
      FoldHides(t, hidden, ops, opens);
    } else {
      HiddenNamed(t, hidden, ops, opens);
    }
  }

  lemma {:induction false} HiddenNamed(t: FdTable, hidden: set<nat>, ops: seq<FdOp>, opens: Redirects.Opens)
    requires PairedCloses(ops) && hidden <= t.Keys && !Avoids(ops, hidden)
    ensures Redirects.Fold(t - hidden, ops, opens) != (Redirects.Fold(t, ops, opens).0 - hidden, true)
  {
    FoldKeys(t - hidden, ops, opens);
    var op :| op in ops && (op.fd in hidden || (op.Dup2? && op.src in hidden));
    if op.fd in hidden {
      assert op.fd as nat in Targets(ops);
    } else if op.src as nat !in Targets(ops) {
      MissingSource(t - hidden, ops, opens, op.src);
    }
  }
}

/** What holds of every parse: the limits of the tree, where its words come from, and what arguments cannot change. */
module ShellParserProps {
  import opened ShellSyntax
  import opened CStrings
  import opened Decimal
  import opened ShellParser

  // ----- limits and provenance -----

  /** A word is the expansion of its own piece of the format, in at most 1024 characters. */
  ghost predicate GoodWord(w: Word, env: Env)
  {
    w.text == UpToNul(Expand(w.format, w.at, env)) && |w.text| <= 1024 && |w.format| <= 1024
  }

  ghost predicate GoodWords(ws: seq<Word>, env: Env)
  {
    |ws| <= 512 && forall i :: 0 <= i < |ws| ==> GoodWord(ws[i], env)
  }

  ghost predicate GoodTask(t: Task, env: Env)
    decreases t
  {
    && GoodWords(t.argv, env) && (t.argv == [] <==> t.sub.Shell?)
    && PairedCloses(t.ops) && (t.sub.Shell? ==> GoodTasks(t.sub.tasks, env))
  }

  /** At most 32 tasks, each a non-empty command or a subshell, to any depth. */
  ghost predicate GoodTasks(ts: seq<Task>, env: Env)
    decreases ts
  {
    |ts| <= 32 && forall i :: 0 <= i < |ts| ==> GoodTask(ts[i], env)
  }

  ghost predicate GoodSt(st: St, env: Env)
  {
    && GoodWords(st.argv, env) && GoodTasks(st.tasks, env) && PairedCloses(st.ops)
    && (st.sub.Shell? ==> st.argv == [] && GoodTasks(st.sub.tasks, env))
  }

  ghost predicate WithinLimits(st: St)
  {
    |st.temp| <= MAX_ARG_LEN && |st.argv| < MAX_NUM_ARGS && |st.tasks| < MAX_NUM_CMDS
  }

  lemma {:induction false} FileOpsPaired(fd: int, path: string, mode: Mode)
    ensures PairedCloses(FileOps(fd, path, mode))
  {
    var ops := FileOps(fd, path, mode);
    if fd == AMP_FD {
      assert ops[1..][0] == Close(2) && ops[1..][1] == Dup2(1, 2) && ops[1..][2..] == [];
    } else {
      assert ops[1..] == [];
    }
  }

  lemma {:induction false} TakeWordGood(st: St, env: Env)
    requires GoodSt(st, env) && WithinLimits(st)
    ensures var t := TakeWord(st, env);
            t.Done? ==> GoodSt(t.st, env) && t.st.tasks == st.tasks
  {
    hide Expand;
    UpToNulLength(Expand(st.temp, st.at, env));
    FileOpsPaired(st.redirFd, st.temp, ModeOf(st.redirToken));
    PairedClosesSplit(st.ops, FileOps(st.redirFd, st.temp, ModeOf(st.redirToken)));
  }

  lemma {:induction false} PushTaskGood(st: St, env: Env)
    requires GoodSt(st, env) && |st.tasks| < MAX_NUM_CMDS
    ensures GoodSt(PushTask(st), env)
  {
    if (st.argv != [] || st.sub.Shell?) && st.token.Set? {
      var t := Task(st.argv, st.sub, st.ops, st.token.token);
      assert GoodTask(t, env);
    }
  }

  lemma {:induction false} FinishGood(st: St, env: Env)
    requires GoodSt(st, env) && WithinLimits(st)
    ensures var f := Finish(st, env); f.Done? ==> GoodSt(f.st, env)
  {
    hide TakeWord;
    TakeWordGood(st, env);
    if TakeWord(st, env).Done? {
      PushTaskGood(TakeWord(st, env).st, env);
    }
  }

  ghost predicate Untouched(a: St, b: St)
  {
    a.argv == b.argv && a.sub == b.sub && a.tasks == b.tasks && a.at == b.at
  }

  /** The switch leaves words, subshell and list of tasks alone, and adds operations in whole groups. */
  ghost predicate SafeMove(m: Move, st: St)
  {
    m.Err? || (Untouched(m.st, st) && (PairedCloses(st.ops) ==> PairedCloses(m.st.ops))
               && (!m.Again? ==> |m.st.temp| <= |st.temp|))
  }

  lemma {:induction false} RedirectSafe(s: string, st: St)
    ensures SafeMove(Redirect(st, s), st)
  {
    if At(s) == '&' && PairedCloses(st.ops) {
      var fd := Int32(Strtol(s[1..]).0);
      var ops := if st.redirFd == AMP_FD then [Dup2(1, fd), Dup2(2, fd)] else [Dup2(fd, st.redirFd)];
      assert ops[1..] == [] || (ops[1..] == [Dup2(2, fd)] && ops[1..][1..] == []);
      PairedClosesSplit(st.ops, ops);
    }
  }

  lemma {:induction false} RedirectCaseSafe(s: string, st: St)
    requires s != "" && s[0] != '\0'
    ensures SafeMove(RedirectCase(s, st), st)
  {
    hide Redirect;
    hide PairedCloses;
    var (v, n) := Strtol(st.temp);
    if st.redirToken == NoRedir && (st.temp == "" || n == |st.temp|) {
      var fd :=
        if st.temp != "" then Int32(v)
        else if st.redirFd != UNDEFINED_FD then st.redirFd
        else if s[0] == '<' then 0 else 1;
      if At(s[1..]) == s[0] {
        RedirectSafe(s[2..], st.(temp := "", redirFd := fd, redirToken := DoubleRedir(s[0])));
      } else {
        RedirectSafe(s[1..], st.(temp := "", redirFd := fd, redirToken := SingleRedir(s[0])));
      }
    }
  }

  lemma {:induction false} SwitchSafe(s: string, st: St)
    ensures SafeMove(Switch(s, st), st)
  {
    hide RedirectCase;
    hide PairedCloses;
    if At(s) == '<' || At(s) == '>' {
      RedirectCaseSafe(s, st);
    }
  }

  lemma {:induction false} RunGood(s: string, st: St, env: Env)
    requires GoodSt(st, env)
    ensures var r := Run(s, st, env); r.Ok? ==> GoodTasks(r.tasks, env)
    decreases |s|, |st.temp|
  {
    if Limit(st).Done? {
      if At(s) == '(' {
        if st.argv == [] {
          RunGood(s[1..], Fresh(st.at), env);
          var inner := Run(s[1..], Fresh(st.at), env);
          if inner.Ok? && |inner.rest| < |s| - 1 {
            var st1 := st.(sub := Shell(inner.tasks), at := inner.at);
            FinishGood(st1, env);
            if Finish(st1, env).Done? {
              RunGood(inner.rest, Finish(st1, env).st, env);
            }
          }
        }
      } else {
        SwitchSafe(s, st);
        match Switch(s, st)
        case Err(_) =>
        case Again(st', rest) => RunGood(rest, st', env);
        case Next(st', rest) =>
          FinishGood(st', env);
          if Finish(st', env).Done? {
            RunGood(rest, Finish(st', env).st, env);
          }
        case Stop(st', _) =>
          FinishGood(st', env);
      }
    }
  }

  /** Every list a parse returns fits the executor's bound, and every word is the expansion of its own format word. */
  lemma {:induction false} ParsedTreesAreGood(format: string, env: Env)
    ensures var r := Parse(format, env); r.Ok? ==> GoodTasks(r.tasks, env)
  {
    RunGood(format, Fresh(0), env);
  }

  // ----- arguments cannot change structure -----

  ghost predicate SameWords(a: seq<Word>, b: seq<Word>)
  {
    |a| == |b| && forall i :: 0 <= i < |a| ==> a[i].format == b[i].format && a[i].at == b[i].at
  }

  ghost predicate SameShell(a: Shell, b: Shell)
    decreases a
  {
    if a.Shell? then b.Shell? && SameTasks(a.tasks, b.tasks) else b.NoShell?
  }

  ghost predicate SameTask(a: Task, b: Task)
    decreases a
  {
    SameWords(a.argv, b.argv) && SameShell(a.sub, b.sub) && a.ops == b.ops && a.token == b.token
  }

  /** Equal but for the texts of words. */
  ghost predicate SameTasks(a: seq<Task>, b: seq<Task>)
    decreases a
  {
    |a| == |b| && forall i :: 0 <= i < |a| ==> SameTask(a[i], b[i])
  }

  ghost predicate SameSt(a: St, b: St)
  {
    && a.temp == b.temp && a.mode == b.mode && a.redirToken == b.redirToken && a.redirFd == b.redirFd
    && a.ops == b.ops && a.token == b.token && a.at == b.at
    && SameWords(a.argv, b.argv) && SameShell(a.sub, b.sub) && SameTasks(a.tasks, b.tasks)
  }

  /** The only failures that an argument can cause. */
  ghost predicate ArgFault(e: Error) { e == ArgTooLong || e == InsecureRedirect }

  ghost predicate Alike(a: Result, b: Result)
  {
    || (a.Fail? && ArgFault(a.error))
    || (b.Fail? && ArgFault(b.error))
    || (a.Fail? && a == b)
    || (a.Ok? && b.Ok? && SameTasks(a.tasks, b.tasks) && a.rest == b.rest && a.at == b.at)
  }

  ghost predicate AlikeStep(a: Step, b: Step)
  {
    || (a.Failed? && ArgFault(a.error))
    || (b.Failed? && ArgFault(b.error))
    || (a.Failed? && a == b)
    || (a.Done? && b.Done? && SameSt(a.st, b.st))
  }

  lemma {:induction false} TakeWordAlike(a: St, b: St, e1: Env, e2: Env)
    requires SameSt(a, b)
    ensures AlikeStep(TakeWord(a, e1), TakeWord(b, e2))
  {
    hide Expand;
  }

  lemma {:induction false} PushTaskAlike(a: St, b: St)
    requires SameSt(a, b)
    ensures SameSt(PushTask(a), PushTask(b))
  {
    if (a.argv != [] || a.sub.Shell?) && a.token.Set? {
      assert SameTask(Task(a.argv, a.sub, a.ops, a.token.token), Task(b.argv, b.sub, b.ops, b.token.token));
    }
  }

  lemma {:induction false} FinishAlike(a: St, b: St, e1: Env, e2: Env)
    requires SameSt(a, b)
    ensures AlikeStep(Finish(a, e1), Finish(b, e2))
  {
    hide TakeWord;
    TakeWordAlike(a, b, e1, e2);
    var f, g := TakeWord(a, e1), TakeWord(b, e2);
    if f.Done? && g.Done? {
      PushTaskAlike(f.st, g.st);
    }
  }

  /** A state with the words and trees of another. */
  ghost function Carry(st: St, from: St): St
  {
    st.(argv := from.argv, sub := from.sub, tasks := from.tasks)
  }

  ghost function CarryMove(m: Move, from: St): Move
  {
    match m
    case Err(_) => m
    case Next(st, rest) => Next(Carry(st, from), rest)
    case Again(st, rest) => Again(Carry(st, from), rest)
    case Stop(st, rest) => Stop(Carry(st, from), rest)
  }

  lemma {:induction false} RedirectAlike(s: string, b: St, from: St)
    ensures Redirect(Carry(b, from), s) == CarryMove(Redirect(b, s), from)
  {
  }

  lemma {:induction false} RedirectCaseAlike(s: string, b: St, from: St)
    requires s != "" && s[0] != '\0'
    ensures RedirectCase(s, Carry(b, from)) == CarryMove(RedirectCase(s, b), from)
  {
    hide Redirect;
    var fd :=
      if b.temp != "" then Int32(Strtol(b.temp).0)
      else if b.redirFd != UNDEFINED_FD then b.redirFd
      else if s[0] == '<' then 0 else 1;
    var twice := At(s[1..]) == s[0];
    RedirectAlike(if twice then s[2..] else s[1..],
                  b.(temp := "", redirFd := fd,
                     redirToken := if twice then DoubleRedir(s[0]) else SingleRedir(s[0])), from);
  }

  lemma {:induction false} QuoteAlike(s: string, b: St, from: St)
    requires s != "" && s[0] != '\0'
    ensures QuoteCase(s, Carry(b, from)) == CarryMove(QuoteCase(s, b), from)
  {
  }

  lemma {:induction false} SeparatorAlike(s: string, b: St, from: St)
    requires s != "" && s[0] != '\0'
    ensures SeparatorCase(s, Carry(b, from)) == CarryMove(SeparatorCase(s, b), from)
  {
  }

  /** What the switch does depends on neither the words nor the trees collected so far. */
  lemma {:induction false} SwitchAlike(s: string, b: St, from: St)
    ensures Switch(s, Carry(b, from)) == CarryMove(Switch(s, b), from)
  {
    hide QuoteCase;
    hide SeparatorCase;
    hide RedirectCase;
    var c := At(s);
    if c == '<' || c == '>' {
      RedirectCaseAlike(s, b, from);
    } else if c == '\'' || c == '"' {
      QuoteAlike(s, b, from);
    } else if c == '&' || c == '|' {
      SeparatorAlike(s, b, from);
    } else {
      PlainAlike(s, b, from);
    }
  }

  lemma {:induction false} PlainAlike(s: string, b: St, from: St)
    requires At(s) !in "<>'\"&|"
    ensures Switch(s, Carry(b, from)) == CarryMove(Switch(s, b), from)
  {
    hide QuoteCase;
    hide SeparatorCase;
    hide RedirectCase;
  }

  lemma {:induction false} RunAlike(s: string, a: St, b: St, e1: Env, e2: Env)
    requires SameSt(a, b)
    ensures Alike(Run(s, a, e1), Run(s, b, e2))
    decreases |s|, |a.temp|
  {
    if Limit(a).Done? {
      if At(s) == '(' {
        if a.argv == [] {
          RunAlike(s[1..], Fresh(a.at), Fresh(b.at), e1, e2);
          var i1, i2 := Run(s[1..], Fresh(a.at), e1), Run(s[1..], Fresh(b.at), e2);
          if i1.Ok? && i2.Ok? && |i1.rest| < |s| - 1 {
            var a1, b1 := a.(sub := Shell(i1.tasks), at := i1.at), b.(sub := Shell(i2.tasks), at := i2.at);
            FinishAlike(a1, b1, e1, e2);
            if Finish(a1, e1).Done? && Finish(b1, e2).Done? {
              RunAlike(i1.rest, Finish(a1, e1).st, Finish(b1, e2).st, e1, e2);
            }
          }
        }
      } else {
        SwitchAlike(s, b, a);
        assert Carry(b, a) == a;
        SwitchSafe(s, a);
        SwitchSafe(s, b);
        var m, n := Switch(s, a), Switch(s, b);
        if m.Again? {
          RunAlike(m.rest, m.st, n.st, e1, e2);
        } else if !m.Err? {
          FinishAlike(m.st, n.st, e1, e2);
          if m.Next? && Finish(m.st, e1).Done? && Finish(n.st, e2).Done? {
            RunAlike(m.rest, Finish(m.st, e1).st, Finish(n.st, e2).st, e1, e2);
          }
        }
      }
    }
  }

  /**
  Arguments never change what a format means. Under any two argument lists a format gives the
  same tasks, tokens, subshells, argv counts and redirects, and reads the same text; or it is
  malformed under both, in the same way; or an argument is too long or names a redirect's file.
  */
  lemma {:induction false} ArgumentsKeepStructure(format: string, e1: Env, e2: Env)
    ensures Alike(Parse(format, e1), Parse(format, e2))
  {
    RunAlike(format, Fresh(0), Fresh(0), e1, e2);
  }
}

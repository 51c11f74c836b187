/** Texts that are not commands of the shell language, and what the parser makes of them. */
module ShellOddities {
  import opened ShellSyntax
  import opened CStrings
  import opened ShellParser
  import opened ShellPrinter
  import opened ShellTargets
  import opened ShellSources

  // ----- parentheses -----

  /** A subshell that is not closed is read as if it were, for any list that prints something. */
  lemma {:induction false} UnclosedSubshell(cs: seq<Command>, env: Env)
    requires Printable(cs) && PrintList(cs) != ""
    ensures Parse("(" + PrintList(cs), env) == Ok([Task([], Shell(Trees(cs, 0)), [], Semicolon)], "", 0)
  {
    hide Run;
    hide PrintList;
    hide Trees;
    hide PrintableCommand;
    ListParses(cs, "", [], 0, env);
    assert PrintList(cs) + "" == PrintList(cs) && [] + Trees(cs, 0) == Trees(cs, 0);
    ParenParses(PrintList(cs), "", Trees(cs, 0), NoShell, env);
    var st, t := Fresh(0).(sub := Shell(Trees(cs, 0))), Task([], Shell(Trees(cs, 0)), [], Semicolon);
    SettledSettles(st, env);
    EndParses("", st, [], t, 0, env);
    assert [] + [t] == [t];
  }

  /** And what follows a parenthesis that closes nothing is not read. */
  lemma {:induction false} TextAfterParen(cs: seq<Command>, more: string, env: Env)
    requires Printable(cs)
    ensures Parse(PrintList(cs) + (")" + more), env) == Ok(Trees(cs, 0), more, 0)
  {
    hide Run;
    hide PrintList;
    hide Trees;
    hide PrintableCommand;
    ListParses(cs, ")" + more, [], 0, env);
    assert AfterEnd(")" + more) == more && [] + Trees(cs, 0) == Trees(cs, 0);
  }

  // ----- separators -----

  /** A separator where no command is being read is kept for the next one. */
  lemma {:induction false} LeadingSeparator(t: Token, more: string, tasks: seq<Task>, at: nat, env: Env)
    requires |tasks| < MAX_NUM_CMDS && Separates(t, more)
    ensures Run(PrintToken(t) + more, Between(tasks, at), env) == Run(more, Between(tasks, at).(token := Set(t)), env)
  {
    hide Run;
    hide Switch;
    var st := Between(tasks, at);
    TokenSwitch(t, more, st);
    assert Finish(st.(token := Set(t)), env) == Done(st.(token := Set(t)));
    assert (PrintToken(t) + more)[0] == PrintToken(t)[0];
    assert Ready(PrintToken(t) + more, st);
    RunNext(PrintToken(t) + more, st, env);
  }

  /** Which it then ends after its first word: `; a b` is read as `a ; b`. */
  lemma {:induction false} LeadingSeparatorSplits(t: Token, ws: seq<Piece>, more: string,
                                                  tasks: seq<Task>, at: nat, env: Env)
    requires |tasks| < MAX_NUM_CMDS && Separates(t, Spell(ws) + (" " + more))
    requires IsTarget(ws) && Literal(Value(ws)) && (HasQuote(ws) || Value(ws) != "")
    ensures Run(PrintToken(t) + (Spell(ws) + (" " + more)), Between(tasks, at), env) ==
            Run(more, Between(tasks + [Task([Word(Value(ws), at, Value(ws))], NoShell, [], t)], at), env)
  {
    hide Run;
    hide HasQuote;
    hide Value;
    hide GoodPieces;
    hide Spell;
    var st, word := Between(tasks, at).(token := Set(t)), Word(Value(ws), at, Value(ws));
    LeadingSeparator(t, Spell(ws) + (" " + more), tasks, at, env);
    PiecesParse(ws, " " + more, st, env);
    var read := Reading(st, ws);
    assert "" + Value(ws) == Value(ws) && [] + [word] == [word];
    WordTaken(Value(ws), read, env);
    assert Finish(read, env) == Done(Between(tasks + [Task([word], NoShell, [], t)], at));
    hide Finish;
    BlankSwitch(more, read);
    assert |read.temp| <= MAX_ARG_LEN && Roomy(read);
    RunNext(" " + more, read, env);
  }

  lemma {:induction false} BlankSwitch(more: string, st: St)
    ensures Switch(" " + more, st) == Next(st, more) && At(" " + more) != '('
  {
    hide QuoteCase;
    hide SeparatorCase;
    hide RedirectCase;
    var s := " " + more;
    assert s[0] == ' ' && s[1..] == more;
  }

  /** A second separator before any word is refused, unless it is `;`, which takes the place of the first. */
  lemma {:induction false} SecondSeparator(t: Token, u: Token, more: string, tasks: seq<Task>, at: nat, env: Env)
    requires |tasks| < MAX_NUM_CMDS && (u == Background ==> At(more) != '>')
    ensures Run(PrintToken(u) + more, Between(tasks, at).(token := Set(t)), env) ==
            if u == Semicolon then Run(more, Between(tasks, at).(token := Set(Semicolon)), env)
            else Fail(UnexpectedToken)
  {
    hide Run;
    var st, s := Between(tasks, at).(token := Set(t)), PrintToken(u) + more;
    assert s[0] == PrintToken(u)[0];
    if u == Semicolon {
      SemicolonSwitch(more, st);
      assert Finish(st.(token := Set(Semicolon)), env) == Done(st.(token := Set(Semicolon)));
      RunNext(s, st, env);
    } else {
      assert Switch(s, st) == Err(UnexpectedToken);
      RunErr(s, st, env);
    }
  }

  lemma {:induction false} RunErr(s: string, st: St, env: Env)
    requires Ready(s, st) && Switch(s, st).Err?
    ensures Run(s, st, env) == Fail(Switch(s, st).error)
  {
    hide Switch;
  }

  // ----- redirects that are refused -----

  lemma {:induction false} RunRefused(s: string, st: St, env: Env)
    requires Ready(s, st) && Switch(s, st).Stop? && Finish(Switch(s, st).st, env).Failed?
    ensures Run(s, st, env) == Fail(Finish(Switch(s, st).st, env).error)
  {
    hide Switch;
    hide Finish;
  }

  /**
  A redirect to a word that its arguments change is refused, and so only to such a word: for
  every plain target that ends the text, whatever conversions it has.
  */
  lemma {:induction false} VariableTarget(mode: Mode, path: string, st: St, base: St, fd: int, env: Env)
    requires path != "" && |path| <= MAX_ARG_LEN && forall i :: 0 <= i < |path| ==> Ordinary(path[i])
    requires Settled(base) && Roomy(base) && FdFor(st, base, mode, fd) && (base.argv != [] || base.sub.Shell?)
    requires |Expand(path, base.at, env)| <= MAX_ARG_LEN
    ensures var task := Task(base.argv, base.sub, base.ops + FileOps(fd, path, mode), Semicolon);
            Run(Operator(mode) + path, st, env) ==
            if UpToNul(Expand(path, base.at, env)) == path
            then Ok(base.tasks + [task], "", base.at + Conversions(path)) else Fail(InsecureRedirect)
  {
    hide Run;
    hide FdFor;
    hide Expand;
    hide Conversions;
    var waiting := AwaitingPath(base, mode, fd);
    var word := waiting.(temp := path);
    assert path + "" == path && At(path) == path[0] && "" + path == path;
    OperatorWaits(mode, "", path, st, base, fd, env);
    OrdinaryParses(path, "", waiting, env);
    assert Switch("", word) == Stop(word.(token := Set(Semicolon)), "");
    assert ModeOf(RedirTokenOf(mode)) == mode;
    if UpToNul(Expand(path, base.at, env)) == path {
      RunStop("", word, env);
    } else {
      RunRefused("", word, env);
    }
  }

  /** `<<` is refused once its word ends. */
  lemma {:induction false} HereDocument(path: string, base: St, env: Env)
    requires GoodPath(path) && Settled(base) && Roomy(base)
    ensures Run("<<" + path, base, env) == Fail(UnsupportedRedirect)
  {
    hide Run;
    var s, waiting := "<<" + path, base.(mode := Redir, redirToken := LessLess, redirFd := 0);
    HereSwitch(path, base);
    hide Switch;
    assert Finish(waiting, env) == Done(waiting);
    assert s[0] == '<';
    RunNext(s, base, env);
    OrdinaryParses(path, "", waiting, env);
    assert path + "" == path && "" + path == path;
    var word := waiting.(temp := path);
    ExpandPlain(path, base.at, env);
    UpToNulPlain(path);
    hide Expand;
    EndSwitch(word);
    RunRefused("", word, env);
  }

  lemma {:induction false} HereSwitch(path: string, base: St)
    requires GoodPath(path) && Settled(base)
    ensures Switch("<<" + path, base) == Next(base.(mode := Redir, redirToken := LessLess, redirFd := 0), path)
  {
    var s := "<<" + path;
    assert s[1..] == "<" + path && s[2..] == path;
    assert At(path) == path[0] && Ordinary(path[0]);
    assert Switch(s, base) == RedirectCase(s, base);
  }

  lemma {:induction false} EndSwitch(st: St)
    ensures Switch("", st) == Stop(st.(token := Set(Semicolon)), "")
  {
  }
}

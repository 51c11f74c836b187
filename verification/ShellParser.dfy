/**
The one-pass parser from a printf-style format and its arguments to a task tree.
`Run` follows the loop of `command_parser` on the unread suffix of the format;
`CommandParser` is the loop itself.
*/
module ShellParser {
  import opened ShellSyntax
  import opened CStrings
  import opened Decimal

  const UNDEFINED_FD := -1
  const AMP_FD := -2

  /**
  Variadic arguments as an endless list of machine words, and the C library's rendering of one
  conversion with its own.
  */
  datatype Env = Env(args: nat -> int, render: (string, seq<int>) -> string)

  datatype Error =
    | ArgTooLong | TooManyArgs | TooManyCmds
    | UnexpectedParen | BadSubshell | WordAfterSubshell
    | UnterminatedQuote | UnexpectedToken
    | UnexpectedRedirect | RedirectError | UnsupportedRedirect | InsecureRedirect
    | CommandSubstitution  // backquotes are outside this model

  datatype Result = Ok(tasks: seq<Task>, rest: string, at: nat) | Fail(error: Error)

  datatype ArgMode = Default | NewArg | Redir
  datatype RedirToken = NoRedir | Less | LessLess | Great | GreatGreat
  datatype MaybeToken = Unset | Set(token: Token)

  /** The parser's variables. `temp` is the format word being collected; the next four belong to the current task. */
  datatype St = St(temp: string, mode: ArgMode, redirToken: RedirToken, redirFd: int,
                   argv: seq<Word>, sub: Shell, ops: seq<FdOp>, token: MaybeToken,
                   tasks: seq<Task>, at: nat)

  function Fresh(at: nat): St
  {
    St("", Default, NoRedir, UNDEFINED_FD, [], NoShell, [], Unset, [], at)
  }

  // ----- expansion of a word -----

  /** Flags, width, precision and length. */
  predicate IsFlag(c: char) { c in "-+ #'I.*hlLqjzt" || IsDigit(c) }

  /** Length of a conversion after its `%`. */
  function SpecLen(s: string): (n: nat)
    ensures n <= |s| && (s != "" ==> n > 0)
  {
    if s == "" then 0 else if IsFlag(s[0]) then 1 + SpecLen(s[1..]) else 1
  }

  function Stars(s: string): nat
  {
    if s == "" then 0 else (if s[0] == '*' then 1 else 0) + Stars(s[1..])
  }

  /** Arguments that a conversion takes: one for each `*`, and one more unless it is the C library's `%m` or a `%`. */
  function Takes(spec: string): nat
    requires spec != ""
  {
    Stars(spec) + if spec[|spec| - 1] == 'm' || (|spec| > 1 && spec[|spec| - 1] == '%') then 0 else 1
  }

  /** The `n` arguments from position `at` on. */
  function Arguments(env: Env, at: nat, n: nat): (args: seq<int>)
    ensures |args| == n && forall i :: 0 <= i < n ==> args[i] == env.args(at + i)
  {
    seq(n, i requires 0 <= i < n => env.args(at + i))
  }

  /** `vsnprintf` into a large enough buffer. */
  function Expand(w: string, at: nat, env: Env): string
    decreases |w|
  {
    if w == "" then ""
    else if w[0] != '%' then [w[0]] + Expand(w[1..], at, env)
    else if At(w[1..]) == '%' then "%" + Expand(w[2..], at, env)
    else
      var n := 1 + SpecLen(w[1..]);
      var k := Takes(w[..n]);
      env.render(w[..n], Arguments(env, at, k)) + Expand(w[n..], at + k, env)
  }

  /** How far `_vsnprintf` advances the argument list. */
  function Conversions(w: string): nat
  {
    if w == "" then 0
    else if w[0] != '%' then Conversions(w[1..])
    else if At(w[1..]) == '%' then Conversions(w[2..])
    else 1 + Conversions(w[1..])
  }

  // ----- the switch -----

  /** How a case of the switch ends: `break`, `continue`, `break` with the loop ending, or failure. */
  datatype Move =
    | Next(st: St, rest: string)
    | Again(st: St, rest: string)
    | Stop(st: St, rest: string)
    | Err(error: Error)

  /** Characters up to the closing quote or the end. */
  function Quoted(s: string, q: char): (n: nat)
    requires q != '\0'
    ensures n <= |s| && (At(s[n..]) == q || At(s[n..]) == '\0')
  {
    if At(s) == '\0' || s[0] == q then 0 else 1 + Quoted(s[1..], q)
  }

  function QuoteCase(s: string, st: St): (m: Move)
    requires s != "" && s[0] != '\0'
    ensures m.Err? || (m.Again? && |m.rest| < |s|)
  {
    var n := Quoted(s[1..], s[0]);
    if |st.temp| + n > MAX_ARG_LEN then Err(ArgTooLong)
    else if At(s[1..][n..]) == '\0' then Err(UnterminatedQuote)
    else Again(st.(temp := st.temp + s[1..][..n], mode := NewArg), s[n + 2..])
  }

  function Single(c: char): Token { if c == '&' then Background else Pipe }
  function Double(c: char): Token { if c == '&' then And else Or }

  function SeparatorCase(s: string, st: St): (m: Move)
    requires s != "" && s[0] != '\0'
    ensures m.Err? || ((m.Again? || m.Next?) && |m.rest| < |s|)
  {
    if st.token.Set? then Err(UnexpectedToken)
    else if s[0] == '&' && At(s[1..]) == '>' then Again(st.(redirFd := AMP_FD), s[1..])
    else if At(s[1..]) == s[0] then Next(st.(token := Set(Double(s[0]))), s[2..])
    else Next(st.(token := Set(Single(s[0]))), s[1..])
  }

  function DoubleRedir(c: char): RedirToken { if c == '<' then LessLess else GreatGreat }
  function SingleRedir(c: char): RedirToken { if c == '<' then Less else Great }

  function RedirectCase(s: string, st: St): (m: Move)
    requires s != "" && s[0] != '\0'
    ensures m.Err? || (m.Next? && (|m.rest| < |s| || (m.rest == s && st.temp != "")))
  {
    if st.redirToken != NoRedir then Err(UnexpectedRedirect)
    else
      var (v, n) := Strtol(st.temp);
      if st.temp != "" && n != |st.temp| then Next(st.(redirFd := UNDEFINED_FD), s)
      else
        var fd :=
          if st.temp != "" then Int32(v)
          else if st.redirFd != UNDEFINED_FD then st.redirFd
          else if s[0] == '<' then 0 else 1;
        var twice := At(s[1..]) == s[0];
        Redirect(st.(temp := "", redirFd := fd, redirToken := if twice then DoubleRedir(s[0]) else SingleRedir(s[0])),
                 if twice then s[2..] else s[1..])
  }

  /** After the redirect operator: `&n` at once, a file name later. */
  function Redirect(st: St, s: string): (m: Move)
    ensures m.Err? || (m.Next? && |m.rest| <= |s|)
  {
    if At(s) == '&' then
      var (v, n) := Strtol(s[1..]);
      if n == 0 then Err(RedirectError)
      else
        var fd := Int32(v);
        var ops := if st.redirFd == AMP_FD then [Dup2(1, fd), Dup2(2, fd)] else [Dup2(fd, st.redirFd)];
        Next(st.(ops := st.ops + ops, redirToken := NoRedir, redirFd := UNDEFINED_FD), s[1..][n..])
    else Next(st.(mode := Redir), s)
  }

  /** Every case but the opening parenthesis. */
  function Switch(s: string, st: St): (m: Move)
    ensures m.Again? ==> |m.rest| < |s|
    ensures m.Next? ==> |m.rest| < |s| || (m.rest == s && st.temp != "")
    ensures m.Stop? ==> |m.rest| <= |s|
  {
    match At(s)
    case ' ' => Next(st, s[1..])
    case '\t' => Next(st, s[1..])
    case ')' => Stop(st.(token := Set(Semicolon)), s[1..])
    case '`' => Err(CommandSubstitution)
    case '\'' => QuoteCase(s, st)
    case '"' => QuoteCase(s, st)
    case '&' => SeparatorCase(s, st)
    case '|' => SeparatorCase(s, st)
    case ';' => Next(st.(token := Set(Semicolon)), s[1..])
    case '\0' => Stop(st.(token := Set(Semicolon)), s)
    case '<' => RedirectCase(s, st)
    case '>' => RedirectCase(s, st)
    case _ => Again(st.(temp := st.temp + [s[0]]), s[1..])
  }

  // ----- after the switch -----

  datatype Step = Done(st: St) | Failed(error: Error)

  function ModeOf(t: RedirToken): Mode
  {
    if t == Less then Read else if t == GreatGreat then Append else Truncate
  }

  /** The operations of a file redirect; `&>` sends descriptor 2 after descriptor 1. */
  function FileOps(fd: int, path: string, mode: Mode): seq<FdOp>
  {
    if fd == AMP_FD then [Open(1, path, mode), Close(2), Dup2(1, 2)] else [Open(fd, path, mode)]
  }

  /** Store the collected word, if there is one. */
  function TakeWord(st: St, env: Env): (r: Step)
    ensures r.Done? ==> r.st.temp == "" && r.st.mode != NewArg
  {
    if st.temp == "" && st.mode != NewArg then Done(st)
    else if st.sub.Shell? && st.mode != Redir then Failed(WordAfterSubshell)
    else
      var text := Expand(st.temp, st.at, env);
      var st1 := st.(temp := "", mode := Default, at := st.at + Conversions(st.temp));
      if |text| > MAX_ARG_LEN then Failed(ArgTooLong)
      else if st.mode != Redir then Done(st1.(argv := st.argv + [Word(st.temp, st.at, UpToNul(text))]))
      else if UpToNul(text) != st.temp then Failed(InsecureRedirect)
      else if st.redirToken == LessLess || st.redirToken == NoRedir then Failed(UnsupportedRedirect)
      else Done(st1.(ops := st.ops + FileOps(st.redirFd, st.temp, ModeOf(st.redirToken)),
                     redirToken := NoRedir, redirFd := UNDEFINED_FD))
  }

  /** Move the current task to the list once its end token is known. */
  function PushTask(st: St): (r: St)
    ensures r.temp == st.temp
  {
    if (st.argv != [] || st.sub.Shell?) && st.token.Set? then
      st.(tasks := st.tasks + [Task(st.argv, st.sub, st.ops, st.token.token)],
          argv := [], sub := NoShell, ops := [], token := Unset)
    else st
  }

  function Finish(st: St, env: Env): (r: Step)
    ensures r.Done? ==> r.st.temp == ""
  {
    var t := TakeWord(st, env);
    if t.Done? then Done(PushTask(t.st)) else t
  }

  function Limit(st: St): (r: Step)
    ensures r == Done(st) || r.Failed?
  {
    if |st.temp| > MAX_ARG_LEN then Failed(ArgTooLong)
    else if |st.argv| >= MAX_NUM_ARGS then Failed(TooManyArgs)
    else if |st.tasks| >= MAX_NUM_CMDS then Failed(TooManyCmds)
    else Done(st)
  }

  /** The loop, from any of its states. Ends because the unread text, or else the pending word, shrinks. */
  function Run(s: string, st: St, env: Env): (r: Result)
    ensures r.Ok? ==> |r.rest| <= |s|
    decreases |s|, |st.temp|
  {
    if Limit(st).Failed? then Fail(Limit(st).error)
    else if At(s) == '(' then
      if st.argv != [] then Fail(UnexpectedParen)
      else
        var inner := Run(s[1..], Fresh(st.at), env);
        if inner.Fail? then inner
        else if |inner.rest| == |s| - 1 then Fail(BadSubshell)
        else
          var f := Finish(st.(sub := Shell(inner.tasks), at := inner.at), env);
          if f.Failed? then Fail(f.error) else Run(inner.rest, f.st, env)
    else
      match Switch(s, st)
      case Err(e) => Fail(e)
      case Again(st', rest) => Run(rest, st', env)
      case Next(st', rest) =>
        var f := Finish(st', env);
        if f.Failed? then Fail(f.error) else Run(rest, f.st, env)
      case Stop(st', rest) =>
        var f := Finish(st', env);
        if f.Failed? then Fail(f.error) else Ok(f.st.tasks, rest, f.st.at)
  }

  function Parse(format: string, env: Env): Result
  {
    Run(format, Fresh(0), env)
  }
}

/**
A printer of commands in the mini shell's own syntax, and the proof that the parser undoes
it: quoting makes any word literal, and no combination of words, redirects, subshells and
separators is read as another.
*/
module ShellPrinter {
  import opened ShellSyntax
  import opened CStrings
  import opened Decimal
  import opened ShellParser

  /** `n<f`, `n>f`, `n>>f`; `&>f`, `&>>f`; `n>&m`; `&>&m`, whose `m` is overwritten, with 1 and then with 2. */
  datatype Redirection =
    | ToFile(fd: nat, mode: Mode, path: string)
    | BothToFile(append: bool, path: string)
    | ToFd(fd: nat, src: nat)
    | BothToFd(fd: nat)

  datatype Command =
    | Simple(words: seq<string>, redirs: seq<Redirection>, token: Token)
    | Subshell(list: seq<Command>, redirs: seq<Redirection>, token: Token)

  // ----- printing -----

  function Escape(w: string): (e: string)
    ensures |w| <= |e|
  {
    if w == "" then "" else (if w[0] == '%' then "%%" else [w[0]]) + Escape(w[1..])
  }

  function QuoteChar(c: char): string
  {
    if c == '\'' then "\"'\"" else if c == '%' then "'%%'" else ['\'', c, '\'']
  }

  function QuoteChars(w: string): string
  {
    if w == "" then "" else QuoteChar(w[0]) + QuoteChars(w[1..])
  }

  function PrintWord(w: string): string
  {
    if w == "" then "''" else QuoteChars(w)
  }

  function PrintWords(ws: seq<string>): string
  {
    if ws == [] then "" else if |ws| == 1 then PrintWord(ws[0]) else PrintWord(ws[0]) + (" " + PrintWords(ws[1..]))
  }

  function Operator(m: Mode): string
  {
    match m case Read => "<" case Truncate => ">" case Append => ">>"
  }

  /** What comes before the operator, and from the operator on. */
  function PrintSource(r: Redirection): string
  {
    match r
    case ToFile(fd, _, _) => Show(fd)
    case ToFd(fd, _) => Show(fd)
    case _ => "&"
  }

  function PrintTarget(r: Redirection): string
  {
    match r
    case ToFile(_, mode, path) => Operator(mode) + path
    case BothToFile(append, path) => Operator(if append then Append else Truncate) + path
    case ToFd(_, src) => ">" + ("&" + Show(src))
    case BothToFd(fd) => ">" + ("&" + Show(fd))
  }

  function PrintRedir(r: Redirection): string
  {
    " " + (PrintSource(r) + PrintTarget(r))
  }

  function PrintRedirs(rs: seq<Redirection>): string
  {
    if rs == [] then "" else PrintRedir(rs[0]) + PrintRedirs(rs[1..])
  }

  function PrintToken(t: Token): string
  {
    match t
    case Semicolon => ";" case Background => "&" case Pipe => "|" case And => "&&" case Or => "||"
  }

  function PrintBody(c: Command): string
    decreases c, 0
  {
    match c
    case Simple(words, _, _) => PrintWords(words)
    case Subshell(list, _, _) => "(" + (PrintList(list) + ")")
  }

  /** The end of input or of the subshell stands for a final `;`. */
  function PrintList(cs: seq<Command>): string
    decreases cs
  {
    if cs == [] then ""
    else
      var text := PrintBody(cs[0]) + PrintRedirs(cs[0].redirs);
      if |cs| == 1 && cs[0].token == Semicolon then text
      else text + (PrintToken(cs[0].token) + PrintList(cs[1..]))
  }

  // ----- the tree a command stands for -----

  function RedirOps(r: Redirection): seq<FdOp>
  {
    match r
    case ToFile(fd, mode, path) => [Open(fd, path, mode)]
    case BothToFile(append, path) => [Open(1, path, if append then Append else Truncate), Close(2), Dup2(1, 2)]
    case ToFd(fd, src) => [Dup2(src, fd)]
    case BothToFd(fd) => [Dup2(1, fd), Dup2(2, fd)]
  }

  function Ops(rs: seq<Redirection>): seq<FdOp>
  {
    if rs == [] then [] else RedirOps(rs[0]) + Ops(rs[1..])
  }

  function Words(ws: seq<string>, at: nat): seq<Word>
  {
    if ws == [] then [] else [Word(Escape(ws[0]), at, ws[0])] + Words(ws[1..], at)
  }

  function Tree(c: Command, at: nat): Task
  {
    match c
    case Simple(words, redirs, token) => Task(Words(words, at), NoShell, Ops(redirs), token)
    case Subshell(list, redirs, token) => Task([], Shell(Trees(list, at)), Ops(redirs), token)
  }

  function Trees(cs: seq<Command>, at: nat): (ts: seq<Task>)
    ensures |ts| == |cs|
  {
    if cs == [] then [] else [Tree(cs[0], at)] + Trees(cs[1..], at)
  }

  // ----- what can be printed -----

  predicate Ordinary(c: char) { c !in " \t()`'\"&|;<>\0" }

  predicate GoodPath(p: string)
  {
    p != "" && |p| <= 1024 && forall i :: 0 <= i < |p| ==> Ordinary(p[i]) && p[i] != '%'
  }

  predicate GoodRedir(r: Redirection)
  {
    match r
    case ToFile(fd, _, path) => fd < 0x8000_0000 && GoodPath(path)
    case BothToFile(_, path) => GoodPath(path)
    case ToFd(fd, src) => fd < 0x8000_0000 && src < 0x8000_0000
    case BothToFd(fd) => fd < 0x8000_0000
  }

  predicate GoodRedirs(rs: seq<Redirection>) { forall i :: 0 <= i < |rs| ==> GoodRedir(rs[i]) }

  predicate GoodText(w: string) { '\0' !in w && |Escape(w)| <= 1024 }

  /** The parser's limits: 512 words, 511 when a redirect follows, and 32 commands, the last then ended by `;`. */
  predicate Printable(cs: seq<Command>)
    decreases cs
  {
    && (|cs| < 32 || (|cs| == 32 && cs[|cs| - 1].token == Semicolon))
    && forall i :: 0 <= i < |cs| ==> PrintableCommand(cs[i])
  }

  predicate PrintableCommand(c: Command)
    decreases c
  {
    && GoodRedirs(c.redirs)
    && match c
       case Simple(words, redirs, _) =>
         && 0 < |words| <= 512 && (redirs != [] ==> |words| < 512)
         && forall i :: 0 <= i < |words| ==> GoodText(words[i])
       case Subshell(list, _, _) => Printable(list)
  }

  // ----- expansion undoes escaping -----

  lemma {:induction false} ExpandPercent(tail: string, at: nat, env: Env)
    ensures Expand("%%" + tail, at, env) == "%" + Expand(tail, at, env)
    ensures Conversions("%%" + tail) == Conversions(tail)
  {
    var e := "%%" + tail;
    assert e[1..] == "%" + tail && e[2..] == tail;
  }

  lemma {:induction false} ExpandOther(c: char, tail: string, at: nat, env: Env)
    requires c != '%'
    ensures Expand([c] + tail, at, env) == [c] + Expand(tail, at, env)
    ensures Conversions([c] + tail) == Conversions(tail)
  {
    assert ([c] + tail)[1..] == tail;
  }

  lemma {:induction false} ExpandEscape(w: string, at: nat, env: Env)
    ensures Expand(Escape(w), at, env) == w && Conversions(Escape(w)) == 0
    decreases |w|
  {
    hide Expand;
    hide Conversions;
    if w == "" {
      ExpandEmpty(at, env);
    } else {
      var tail := Escape(w[1..]);
      ExpandEscape(w[1..], at, env);
      assert [w[0]] + w[1..] == w;
      if w[0] == '%' {
        ExpandPercent(tail, at, env);
      } else {
        ExpandOther(w[0], tail, at, env);
      }
    }
  }

  lemma {:induction false} ExpandEmpty(at: nat, env: Env)
    ensures Expand("", at, env) == "" && Conversions("") == 0
  {
  }

  lemma {:induction false} ExpandPlain(p: string, at: nat, env: Env)
    requires '%' !in p
    ensures Expand(p, at, env) == p && Conversions(p) == 0
    decreases |p|
  {
    if p != "" {
      ExpandPlain(p[1..], at, env);
    }
  }

  // ----- reading words -----

  ghost predicate Roomy(st: St)
  {
    |st.argv| < MAX_NUM_ARGS && |st.tasks| < MAX_NUM_CMDS
  }

  // One iteration of the loop, by what the switch does.

  ghost predicate Ready(s: string, st: St)
  {
    Roomy(st) && |st.temp| <= MAX_ARG_LEN && At(s) != '('
  }

  lemma {:induction false} RunAgain(s: string, st: St, env: Env)
    requires Ready(s, st) && Switch(s, st).Again?
    ensures Run(s, st, env) == Run(Switch(s, st).rest, Switch(s, st).st, env)
  {
    hide Switch;
  }

  lemma {:induction false} RunNext(s: string, st: St, env: Env)
    requires Ready(s, st) && Switch(s, st).Next? && Finish(Switch(s, st).st, env).Done?
    ensures Run(s, st, env) == Run(Switch(s, st).rest, Finish(Switch(s, st).st, env).st, env)
  {
    hide Switch;
    hide Finish;
  }

  lemma {:induction false} RunStop(s: string, st: St, env: Env)
    requires Ready(s, st) && Switch(s, st).Stop? && Finish(Switch(s, st).st, env).Done?
    ensures var f := Finish(Switch(s, st).st, env).st;
            Run(s, st, env) == Ok(f.tasks, Switch(s, st).rest, f.at)
  {
    hide Switch;
    hide Finish;
  }

  lemma {:induction false} QuotationSwitch(q: char, e: string, more: string, st: St)
    requires (q == '\'' || q == '"') && q !in e && '\0' !in e && |st.temp| + |e| <= MAX_ARG_LEN
    ensures Switch([q] + e + [q] + more, st) == Again(st.(temp := st.temp + e, mode := NewArg), more)
  {
    hide SeparatorCase;
    hide RedirectCase;
    var s := [q] + e + [q] + more;
    assert s[0] == q && s[1..] == e + [q] + more;
    QuotedStops(e, q, more);
    hide Quoted;
    assert s[1..][..|e|] == e && s[1..][|e|..] == [q] + more && s[|e| + 2..] == more;
    assert Switch(s, st) == QuoteCase(s, st);
  }

  lemma {:induction false} QuotationParses(q: char, e: string, more: string, st: St, env: Env)
    requires (q == '\'' || q == '"') && q !in e && '\0' !in e && Roomy(st) && |st.temp| + |e| <= MAX_ARG_LEN
    ensures Run([q] + e + [q] + more, st, env) == Run(more, st.(temp := st.temp + e, mode := NewArg), env)
  {
    hide Run;
    hide Switch;
    QuotationSwitch(q, e, more, st);
    assert ([q] + e + [q] + more)[0] == q;
    RunAgain([q] + e + [q] + more, st, env);
  }

  lemma {:induction false} CharParses(c: char, more: string, st: St, env: Env)
    requires c != '\0' && Roomy(st) && |st.temp| + |Escape([c])| <= MAX_ARG_LEN
    ensures Run(QuoteChar(c) + more, st, env) == Run(more, st.(temp := st.temp + Escape([c]), mode := NewArg), env)
  {
    hide Run;
    var q, e := if c == '\'' then '"' else '\'', Escape([c]);
    assert [c][1..] == "" && e == if c == '%' then "%%" else [c];
    assert QuoteChar(c) == [q] + e + [q];
    QuotationParses(q, e, more, st, env);
  }

  lemma {:induction false} QuotedStops(e: string, q: char, more: string)
    requires q != '\0' && q !in e && '\0' !in e
    ensures Quoted(e + [q] + more, q) == |e|
    decreases |e|
  {
    var s := e + [q] + more;
    if e != "" {
      assert s[1..] == e[1..] + [q] + more;
      QuotedStops(e[1..], q, more);
    }
  }

  lemma {:induction false} EscapeFirst(w: string)
    requires w != ""
    ensures Escape(w) == Escape([w[0]]) + Escape(w[1..])
  {
    assert [w[0]][1..] == "";
  }

  lemma {:induction false} CharsParse(w: string, more: string, st: St, env: Env)
    requires w != "" && '\0' !in w && Roomy(st) && |st.temp| + |Escape(w)| <= MAX_ARG_LEN
    ensures Run(QuoteChars(w) + more, st, env) == Run(more, st.(temp := st.temp + Escape(w), mode := NewArg), env)
    decreases |w|
  {
    hide Run;
    hide Escape;
    hide QuoteChar;
    var c, tail := w[0], w[1..];
    EscapeFirst(w);
    var st1 := st.(temp := st.temp + Escape([c]), mode := NewArg);
    var next := QuoteChars(tail) + more;
    Associate(QuoteChar(c), QuoteChars(tail), more);
    Associate(st.temp, Escape([c]), Escape(tail));
    CharParses(c, next, st, env);
    if tail != "" {
      CharsParse(tail, more, st1, env);
    } else {
      EscapeEmpty(tail);
      assert next == more && st1.temp == st.temp + Escape(w);
    }
  }

  lemma {:induction false} EscapeEmpty(w: string)
    requires w == ""
    ensures Escape(w) == ""
  {
  }

  lemma {:induction false} WordParses(w: string, more: string, st: St, env: Env)
    requires GoodText(w) && Roomy(st) && st.temp == ""
    ensures Run(PrintWord(w) + more, st, env) == Run(more, st.(temp := Escape(w), mode := NewArg), env)
  {
    hide Run;
    if w == "" {
      assert PrintWord(w) == ['\''] + "" + ['\''];
      QuotationParses('\'', "", more, st, env);
      assert st.temp + "" == Escape(w);
    } else {
      CharsParse(w, more, st, env);
      assert "" + Escape(w) == Escape(w);
    }
  }

  // ----- one word at a time -----

  /** A state between words. */
  ghost predicate Settled(st: St)
  {
    st.temp == "" && st.mode == Default && st.redirToken == NoRedir && st.redirFd == UNDEFINED_FD && st.token == Unset
  }

  /** Whatever ends the word pending in `st` leaves `base`. */
  ghost predicate Settles(st: St, base: St, env: Env)
  {
    && Settled(base) && Roomy(st) && |st.temp| <= MAX_ARG_LEN && st.token == Unset
    && TakeWord(st, env) == Done(base)
  }

  lemma {:induction false} WordSettles(w: string, st: St, env: Env)
    requires GoodText(w) && Settled(st) && st.sub.NoShell? && Roomy(st)
    ensures Settles(st.(temp := Escape(w), mode := NewArg), st.(argv := st.argv + [Word(Escape(w), st.at, w)]), env)
  {
    ExpandEscape(w, st.at, env);
    UpToNulPlain(w);
  }

  lemma {:induction false} SpaceParses(more: string, st: St, base: St, env: Env)
    requires Settles(st, base, env)
    ensures Run(" " + more, st, env) == Run(more, base, env)
  {
    hide Run;
    var s := " " + more;
    assert s[1..] == more;
    assert Switch(s, st) == Next(st, more);
    RunNext(s, st, env);
  }

  lemma {:induction false} PrintWordsFirst(ws: seq<string>, more: string)
    requires |ws| > 1
    ensures PrintWords(ws) + more == PrintWord(ws[0]) + (" " + (PrintWords(ws[1..]) + more))
  {
    hide PrintWord;
    Associate(PrintWord(ws[0]), " " + PrintWords(ws[1..]), more);
    Associate(" ", PrintWords(ws[1..]), more);
  }

  lemma {:induction false} WordsFirst(argv: seq<Word>, ws: seq<string>, at: nat)
    requires ws != []
    ensures argv + Words(ws, at) == argv + [Word(Escape(ws[0]), at, ws[0])] + Words(ws[1..], at)
    ensures |ws| == 1 ==> argv + Words(ws, at) == argv + [Word(Escape(ws[0]), at, ws[0])]
  {
    hide Escape;
    var first, tail := [Word(Escape(ws[0]), at, ws[0])], Words(ws[1..], at);
    assert Words(ws, at) == first + tail;
    Associate(argv, first, tail);
    if |ws| == 1 {
      assert ws[1..] == [] && tail == [];
      assert first + tail == first;
    }
  }

  lemma {:induction false} WordsParse(ws: seq<string>, more: string, st: St, env: Env) returns (st': St)
    requires ws != [] && (forall i :: 0 <= i < |ws| ==> GoodText(ws[i]))
    requires Settled(st) && st.sub.NoShell? && |st.argv| + |ws| <= MAX_NUM_ARGS && |st.tasks| < MAX_NUM_CMDS
    ensures Run(PrintWords(ws) + more, st, env) == Run(more, st', env)
    ensures Settles(st', st.(argv := st.argv + Words(ws, st.at)), env)
    decreases |ws|
  {
    hide Run;
    hide TakeWord;
    hide Escape;
    hide PrintWord;
    hide Words;
    hide GoodText;
    var w := ws[0];
    st' := st.(temp := Escape(w), mode := NewArg);
    WordSettles(w, st, env);
    WordsFirst(st.argv, ws, st.at);
    if |ws| == 1 {
      WordParses(w, more, st, env);
    } else {
      var base := st.(argv := st.argv + [Word(Escape(w), st.at, w)]);
      var tail := PrintWords(ws[1..]) + more;
      PrintWordsFirst(ws, more);
      WordParses(w, " " + tail, st, env);
      SpaceParses(tail, st', base, env);
      st' := WordsParse(ws[1..], more, base, env);
    }
  }

  // ----- redirects -----

  lemma {:induction false} OrdinaryParses(p: string, more: string, st: St, env: Env)
    requires Roomy(st) && |st.temp| + |p| <= MAX_ARG_LEN && forall i :: 0 <= i < |p| ==> Ordinary(p[i])
    ensures Run(p + more, st, env) == Run(more, st.(temp := st.temp + p), env)
    decreases |p|
  {
    hide Run;
    if p == "" {
      assert p + more == more && st.temp + p == st.temp;
    } else {
      var s, st1 := p + more, st.(temp := st.temp + [p[0]]);
      assert s[0] == p[0] && s[1..] == p[1..] + more;
      assert Switch(s, st) == Again(st1, s[1..]);
      RunAgain(s, st, env);
      OrdinaryParses(p[1..], more, st1, env);
      assert st1.temp + p[1..] == st.temp + p;
    }
  }

  function RedirTokenOf(m: Mode): RedirToken
  {
    match m case Read => Less case Truncate => Great case Append => GreatGreat
  }

  /** The descriptor of the redirect to come: digits still in `temp`, or set by a preceding `&`. */
  ghost predicate FdKnown(st: St, base: St, fd: int)
  {
    || (st == base.(redirFd := fd) && fd != UNDEFINED_FD)
    || (&& st.temp != "" && |st.temp| <= MAX_ARG_LEN && st == base.(temp := st.temp)
        && Strtol(st.temp) == (fd, |st.temp|) && Int32(fd) == fd)
  }

  lemma {:induction false} OperatorParses(mode: Mode, rest: string, st: St, base: St, fd: int)
    requires Settled(base) && FdKnown(st, base, fd) && At(rest) != '<' && At(rest) != '>'
    ensures Switch(Operator(mode) + rest, st) == Redirect(base.(redirToken := RedirTokenOf(mode), redirFd := fd), rest)
  {
    hide Redirect;
    hide Strtol;
    var s := Operator(mode) + rest;
    assert s[|Operator(mode)|..] == rest;
    assert Switch(s, st) == RedirectCase(s, st);
  }

  /** The operator and file name of a redirect. */
  lemma {:induction false} FileParses(mode: Mode, path: string, more: string, st: St, base: St, fd: int, env: Env)
    requires GoodPath(path) && Settled(base) && Roomy(base) && FdKnown(st, base, fd)
    ensures Run(Operator(mode) + (path + more), st, env) == Run(more, AwaitingPath(base, mode, fd).(temp := path), env)
  {
    hide Run;
    var rest, st1 := path + more, AwaitingPath(base, mode, fd);
    assert At(rest) == path[0] && Ordinary(path[0]);
    OperatorParses(mode, rest, st, base, fd);
    assert Redirect(base.(redirToken := RedirTokenOf(mode), redirFd := fd), rest) == Next(st1, rest);
    assert Finish(st1, env) == Done(st1);
    RunNext(Operator(mode) + rest, st, env);
    OrdinaryParses(path, more, st1, env);
    assert "" + path == path;
  }

  function AwaitingPath(base: St, mode: Mode, fd: int): St
  {
    base.(mode := Redir, redirToken := RedirTokenOf(mode), redirFd := fd)
  }

  lemma {:induction false} FileSettles(mode: Mode, path: string, base: St, fd: int, env: Env)
    requires GoodPath(path) && Settled(base) && Roomy(base)
    ensures Settles(AwaitingPath(base, mode, fd).(temp := path), base.(ops := base.ops + FileOps(fd, path, mode)), env)
  {
    ExpandPlain(path, base.at, env);
    UpToNulPlain(path);
    assert ModeOf(RedirTokenOf(mode)) == mode;
  }

  /** `>&n` after its descriptor. */
  lemma {:induction false} FdParses(src: nat, more: string, st: St, base: St, fd: int, env: Env)
    requires src < 0x8000_0000 && (more == "" || !IsDigit(more[0]))
    requires Settled(base) && Roomy(base) && FdKnown(st, base, fd)
    ensures var ops := if fd == AMP_FD then [Dup2(1, src), Dup2(2, src)] else [Dup2(src, fd)];
            Run(">" + ("&" + (Show(src) + more)), st, env) == Run(more, base.(ops := base.ops + ops), env)
  {
    hide Run;
    hide Show;
    hide Strtol;
    hide Redirect;
    var n := Show(src) + more;
    var rest := "&" + n;
    assert rest[1..] == n && n[|Show(src)|..] == more;
    StrtolShow(src, more);
    OperatorParses(Truncate, rest, st, base, fd);
    var ops := if fd == AMP_FD then [Dup2(1, src), Dup2(2, src)] else [Dup2(src, fd)];
    FdTarget(src, n, base.(redirToken := Great, redirFd := fd));
    RunNext(">" + rest, st, env);
  }

  lemma {:induction false} FdTarget(src: nat, n: string, st: St)
    requires Strtol(n) == (src, |Show(src)|) && src < 0x8000_0000 && |Show(src)| <= |n|
    ensures var ops := if st.redirFd == AMP_FD then [Dup2(1, src), Dup2(2, src)] else [Dup2(src, st.redirFd)];
            Redirect(st, "&" + n) ==
            Next(st.(ops := st.ops + ops, redirToken := NoRedir, redirFd := UNDEFINED_FD), n[|Show(src)|..])
  {
    hide Strtol;
    hide Show;
    assert ("&" + n)[1..] == n;
    ShowNonEmpty(src);
  }

  lemma {:induction false} ShowNonEmpty(n: nat)
    ensures |Show(n)| > 0
  {
  }

  lemma {:induction false} NumberParses(fd: nat, more: string, base: St, env: Env)
    requires fd < 0x8000_0000 && Settled(base) && Roomy(base)
    ensures Run(Show(fd) + more, base, env) == Run(more, base.(temp := Show(fd)), env)
    ensures FdKnown(base.(temp := Show(fd)), base, fd)
  {
    hide Run;
    hide Show;
    hide Strtol;
    hide Ordinary;
    ShowFdLength(fd);
    ShowOrdinary(fd);
    OrdinaryParses(Show(fd), more, base, env);
    assert "" + Show(fd) == Show(fd);
    StrtolShow(fd, "");
    assert Show(fd) + "" == Show(fd);
  }

  lemma {:induction false} ShowOrdinary(n: nat)
    ensures |Show(n)| > 0 && forall i :: 0 <= i < |Show(n)| ==> Ordinary(Show(n)[i])
  {
    hide Value;
  }

  lemma {:induction false} AmpParses(more: string, base: St, env: Env)
    requires Settled(base) && Roomy(base) && At(more) == '>'
    ensures Run("&" + more, base, env) == Run(more, base.(redirFd := AMP_FD), env)
  {
    hide Run;
    var s := "&" + more;
    assert s[1..] == more;
    assert Switch(s, base) == SeparatorCase(s, base);
    RunAgain(s, base, env);
  }

  function SourceFd(r: Redirection): int
  {
    match r
    case ToFile(fd, _, _) => fd
    case ToFd(fd, _) => fd
    case _ => AMP_FD
  }

  lemma {:induction false} SourceParses(r: Redirection, rest: string, base: St, env: Env) returns (st: St)
    requires GoodRedir(r) && Settled(base) && Roomy(base) && (r.BothToFile? || r.BothToFd? ==> At(rest) == '>')
    ensures Run(PrintSource(r) + rest, base, env) == Run(rest, st, env) && FdKnown(st, base, SourceFd(r))
  {
    hide Run;
    hide Show;
    hide Strtol;
    if r.ToFile? || r.ToFd? {
      NumberParses(r.fd, rest, base, env);
      st := base.(temp := Show(r.fd));
    } else {
      AmpParses(rest, base, env);
      st := base.(redirFd := AMP_FD);
    }
  }

  lemma {:induction false} FileTargetParses(r: Redirection, more: string, st: St, base: St, env: Env) returns (st': St)
    requires GoodRedir(r) && Settled(base) && Roomy(base) && FdKnown(st, base, SourceFd(r))
    requires r.ToFile? || r.BothToFile?
    ensures Run(PrintTarget(r) + more, st, env) == Run(more, st', env)
    ensures Settles(st', base.(ops := base.ops + RedirOps(r)), env)
  {
    hide Run;
    hide Settles;
    hide FdKnown;
    hide Settled;
    hide Operator;
    var fd := SourceFd(r);
    var mode := if r.ToFile? then r.mode else if r.append then Append else Truncate;
    assert PrintTarget(r) + more == Operator(mode) + (r.path + more);
    FileParses(mode, r.path, more, st, base, fd, env);
    FileSettles(mode, r.path, base, fd, env);
    st' := AwaitingPath(base, mode, fd).(temp := r.path);
  }

  lemma {:induction false} FdTargetParses(r: Redirection, more: string, st: St, base: St, env: Env)
    requires GoodRedir(r) && Settled(base) && Roomy(base) && FdKnown(st, base, SourceFd(r)) && (r.ToFd? || r.BothToFd?)
    requires more == "" || !IsDigit(more[0])
    ensures Run(PrintTarget(r) + more, st, env) == Run(more, base.(ops := base.ops + RedirOps(r)), env)
    ensures Settles(base.(ops := base.ops + RedirOps(r)), base.(ops := base.ops + RedirOps(r)), env)
  {
    hide Run;
    hide Show;
    hide FdKnown;
    var n := if r.ToFd? then r.src else r.fd;
    assert PrintTarget(r) + more == ">" + ("&" + (Show(n) + more));
    FdParses(n, more, st, base, SourceFd(r), env);
    SettledSettles(base.(ops := base.ops + RedirOps(r)), env);
  }

  lemma {:induction false} RedirParses(r: Redirection, more: string, st: St, base: St, env: Env) returns (st': St)
    requires GoodRedir(r) && Settles(st, base, env) && Roomy(base) && (more == "" || !IsDigit(more[0]))
    ensures Run(PrintRedir(r) + more, st, env) == Run(more, st', env)
    ensures Settles(st', base.(ops := base.ops + RedirOps(r)), env)
  {
    hide Run;
    hide TakeWord;
    hide RedirOps;
    hide PrintSource;
    hide FdKnown;
    var rest := PrintTarget(r) + more;
    assert PrintRedir(r) + more == " " + (PrintSource(r) + rest);
    SpaceParses(PrintSource(r) + rest, st, base, env);
    assert r.BothToFile? || r.BothToFd? ==> At(rest) == '>';
    var st1 := SourceParses(r, rest, base, env);
    if r.ToFile? || r.BothToFile? {
      st' := FileTargetParses(r, more, st1, base, env);
    } else {
      FdTargetParses(r, more, st1, base, env);
      st' := base.(ops := base.ops + RedirOps(r));
    }
  }

  lemma {:induction false} SettledSettles(st: St, env: Env)
    requires Settled(st) && Roomy(st)
    ensures Settles(st, st, env)
  {
  }

  lemma {:induction false} RedirsEqs(ops: seq<FdOp>, rs: seq<Redirection>, more: string)
    ensures rs == [] ==> PrintRedirs(rs) + more == more && ops + Ops(rs) == ops
    ensures rs != [] ==>
              && PrintRedirs(rs) + more == PrintRedir(rs[0]) + (PrintRedirs(rs[1..]) + more)
              && ops + Ops(rs) == ops + RedirOps(rs[0]) + Ops(rs[1..])
  {
    hide PrintRedir;
    hide RedirOps;
    if rs != [] {
      assert PrintRedirs(rs) == PrintRedir(rs[0]) + PrintRedirs(rs[1..]);
      assert Ops(rs) == RedirOps(rs[0]) + Ops(rs[1..]);
      Associate(PrintRedir(rs[0]), PrintRedirs(rs[1..]), more);
      Associate(ops, RedirOps(rs[0]), Ops(rs[1..]));
    }
  }

  lemma {:induction false} RedirsParse(rs: seq<Redirection>, more: string, st: St, base: St, env: Env) returns (st': St)
    requires GoodRedirs(rs) && Settles(st, base, env) && (rs != [] ==> Roomy(base)) && (more == "" || !IsDigit(more[0]))
    ensures Run(PrintRedirs(rs) + more, st, env) == Run(more, st', env)
    ensures Settles(st', base.(ops := base.ops + Ops(rs)), env)
    decreases |rs|
  {
    hide Run;
    hide Settles;
    hide PrintRedirs;
    hide PrintRedir;
    hide RedirOps;
    hide Ops;
    hide GoodRedir;
    RedirsEqs(base.ops, rs, more);
    st' := st;
    if rs != [] {
      var tail := PrintRedirs(rs[1..]) + more;
      RedirsStart(rs[1..], more);
      var st1 := RedirParses(rs[0], tail, st, base, env);
      st' := RedirsParse(rs[1..], more, st1, base.(ops := base.ops + RedirOps(rs[0])), env);
    }
  }

  /** Redirects start with a space. */
  lemma {:induction false} RedirsStart(rs: seq<Redirection>, more: string)
    requires more == "" || !IsDigit(more[0])
    ensures var s := PrintRedirs(rs) + more; s == "" || !IsDigit(s[0])
  {
    if rs != [] {
      assert PrintRedir(rs[0])[0] == ' ';
    }
  }

  // ----- commands and lists -----

  /** A state between commands. */
  function Between(tasks: seq<Task>, at: nat): St
  {
    Fresh(at).(tasks := tasks)
  }

  function Building(tasks: seq<Task>, t: Task, at: nat): St
  {
    Fresh(at).(tasks := tasks, argv := t.argv, sub := t.sub, ops := t.ops)
  }

  /** Ending the pending word with an end token known completes the task. */
  lemma {:induction false} EndFinishes(st: St, tasks: seq<Task>, t: Task, at: nat, env: Env)
    requires Settles(st, Building(tasks, t, at), env) && (t.argv != [] || t.sub.Shell?)
    ensures Finish(st.(token := Set(t.token)), env) == Done(Between(tasks + [t], at))
  {
    hide Expand;
    assert TakeWord(st.(token := Set(t.token)), env) == Done(Building(tasks, t, at).(token := Set(t.token)));
  }

  lemma {:induction false} TokenParses(more: string, st: St, tasks: seq<Task>, t: Task, at: nat, env: Env)
    requires Settles(st, Building(tasks, t, at), env) && (t.argv != [] || t.sub.Shell?)
    requires At(more) != '&' && At(more) != '|' && At(more) != '>'
    ensures Run(PrintToken(t.token) + more, st, env) == Run(more, Between(tasks + [t], at), env)
  {
    hide Run;
    hide TakeWord;
    hide Finish;
    hide Switch;
    EndFinishes(st, tasks, t, at, env);
    TokenSwitch(t.token, more, st);
    RunNext(PrintToken(t.token) + more, st, env);
  }

  /** What follows cannot be taken for the rest of a longer separator, or of `&>`. */
  predicate Separates(t: Token, more: string)
  {
    (t == Background ==> At(more) != '&' && At(more) != '>') && (t == Pipe ==> At(more) != '|')
  }

  lemma {:induction false} TokenSwitch(t: Token, more: string, st: St)
    requires st.token == Unset && Separates(t, more)
    ensures Switch(PrintToken(t) + more, st) == Next(st.(token := Set(t)), more)
  {
    var s := PrintToken(t) + more;
    assert s[|PrintToken(t)|..] == more;
    if t == And || t == Or {
      assert s[0] == s[1] == PrintToken(t)[0] && s[1..][0] == s[1];
    } else {
      assert s[0] == PrintToken(t)[0];
    }
  }

  /** The end of the text, or the parenthesis that closes a subshell. */
  function AfterEnd(rest: string): string { if rest == "" then "" else rest[1..] }

  lemma {:induction false} EndParses(rest: string, st: St, tasks: seq<Task>, t: Task, at: nat, env: Env)
    requires Settles(st, Building(tasks, t, at), env) && (t.argv != [] || t.sub.Shell?) && t.token == Semicolon
    requires rest == "" || rest[0] == ')'
    ensures Run(rest, st, env) == Ok(tasks + [t], AfterEnd(rest), at)
  {
    hide Run;
    hide TakeWord;
    hide Finish;
    EndFinishes(st, tasks, t, at, env);
    assert Switch(rest, st) == Stop(st.(token := Set(t.token)), AfterEnd(rest));
    RunStop(rest, st, env);
  }

  lemma {:induction false} NothingParses(rest: string, tasks: seq<Task>, at: nat, env: Env)
    requires (rest == "" || rest[0] == ')') && |tasks| < MAX_NUM_CMDS
    ensures Run(rest, Between(tasks, at), env) == Ok(tasks, AfterEnd(rest), at)
  {
    hide Run;
    var st := Between(tasks, at);
    assert Switch(rest, st) == Stop(st.(token := Set(Semicolon)), AfterEnd(rest));
    RunStop(rest, st, env);
  }

  /** The words of a command, or its subshell, before redirects. */
  lemma {:induction false} BodyParses(c: Command, more: string, tasks: seq<Task>, at: nat, env: Env) returns (st: St)
    requires PrintableCommand(c) && |tasks| < MAX_NUM_CMDS
    ensures Run(PrintBody(c) + more, Between(tasks, at), env) == Run(more, st, env)
    ensures Settles(st, Building(tasks, Tree(c, at).(ops := []), at), env)
    decreases c, 0
  {
    hide Run;
    hide TakeWord;
    hide Settles;
    hide Words;
    hide GoodText;
    hide PrintWords;
    match c
    case Simple(words, _, _) =>
      st := WordsParse(words, more, Between(tasks, at), env);
      assert [] + Words(words, at) == Words(words, at);
    case Subshell(list, _, _) =>
      SubshellBodyParses(list, more, tasks, at, env);
      st := Between(tasks, at).(sub := Shell(Trees(list, at)));
      assert PrintBody(c) == "(" + (PrintList(list) + ")");
  }

  lemma {:induction false} SubshellBodyParses(list: seq<Command>, more: string, tasks: seq<Task>, at: nat, env: Env)
    requires Printable(list) && |tasks| < MAX_NUM_CMDS
    ensures var st := Between(tasks, at).(sub := Shell(Trees(list, at)));
            && Run("(" + (PrintList(list) + ")") + more, Between(tasks, at), env) == Run(more, st, env)
            && Settles(st, st, env)
    decreases list, 1
  {
    hide Run;
    hide TakeWord;
    hide PrintList;
    hide Trees;
    hide PrintableCommand;
    hide Settles;
    var st := Between(tasks, at).(sub := Shell(Trees(list, at)));
    var text := PrintList(list) + (")" + more);
    assert "(" + (PrintList(list) + ")") + more == "(" + text;
    ListParses(list, ")" + more, [], at, env);
    assert AfterEnd(")" + more) == more && [] + Trees(list, at) == Trees(list, at);
    SubshellParses(text, more, Trees(list, at), tasks, at, env);
    SettledSettles(st, env);
  }

  lemma {:induction false} SubshellParses(text: string, more: string, inner: seq<Task>, tasks: seq<Task>, at: nat,
                                          env: Env)
    requires Run(text, Fresh(at), env) == Ok(inner, more, at) && |more| < |text| && |tasks| < MAX_NUM_CMDS
    ensures Run("(" + text, Between(tasks, at), env) == Run(more, Between(tasks, at).(sub := Shell(inner)), env)
  {
    var s := "(" + text;
    assert s[0] == '(' && s[1..] == text;
    var st := Between(tasks, at).(sub := Shell(inner));
    assert Finish(st, env) == Done(st);
  }

  lemma {:induction false} CommandParses(c: Command, more: string, tasks: seq<Task>, at: nat, env: Env) returns (st: St)
    requires PrintableCommand(c) && |tasks| < MAX_NUM_CMDS && (more == "" || !IsDigit(more[0]))
    ensures Run(PrintBody(c) + PrintRedirs(c.redirs) + more, Between(tasks, at), env) == Run(more, st, env)
    ensures Settles(st, Building(tasks, Tree(c, at), at), env)
    ensures Tree(c, at).argv != [] || Tree(c, at).sub.Shell?
    decreases c, 1
  {
    hide Run;
    hide TakeWord;
    hide PrintBody;
    hide Words;
    var rest := PrintRedirs(c.redirs) + more;
    assert PrintBody(c) + PrintRedirs(c.redirs) + more == PrintBody(c) + rest;
    WordsLength(c, at);
    var st1 := BodyParses(c, rest, tasks, at, env);
    var base := Building(tasks, Tree(c, at).(ops := []), at);
    st := RedirsParse(c.redirs, more, st1, base, env);
    assert [] + Ops(c.redirs) == Ops(c.redirs);
  }

  lemma {:induction false} WordsCount(ws: seq<string>, at: nat)
    ensures |Words(ws, at)| == |ws|
    decreases |ws|
  {
    if ws != [] {
      WordsCount(ws[1..], at);
    }
  }

  lemma {:induction false} WordsLength(c: Command, at: nat)
    requires PrintableCommand(c)
    ensures var t := Tree(c, at);
            (t.argv != [] || t.sub.Shell?) && (c.redirs != [] ==> |t.argv| < MAX_NUM_ARGS)
  {
    if c.Simple? {
      WordsCount(c.words, at);
    }
  }

  /** Nothing that follows a command can be taken for part of its end token or of a number. */
  lemma {:induction false} ListStart(cs: seq<Command>, rest: string)
    requires (forall i :: 0 <= i < |cs| ==> PrintableCommand(cs[i])) && (rest == "" || rest[0] == ')')
    ensures At(PrintList(cs) + rest) in ['\'', '"', '(', ')', '\0']
  {
    if cs != [] {
      BodyStart(cs[0]);
      assert (PrintList(cs) + rest)[0] == PrintBody(cs[0])[0];
    }
  }

  lemma {:induction false} BodyStart(c: Command)
    requires PrintableCommand(c)
    ensures PrintBody(c) != "" && PrintBody(c)[0] in ['\'', '"', '(']
  {
    if c.Simple? {
      WordStart(c.words[0]);
    }
  }

  lemma {:induction false} PrintListEqs(cs: seq<Command>, rest: string)
    ensures cs == [] ==> PrintList(cs) + rest == rest
    ensures cs != [] ==>
              var text := PrintBody(cs[0]) + PrintRedirs(cs[0].redirs);
              PrintList(cs) + rest ==
              if |cs| == 1 && cs[0].token == Semicolon then text + rest
              else text + (PrintToken(cs[0].token) + (PrintList(cs[1..]) + rest))
  {
    hide PrintBody;
    hide PrintRedirs;
    if cs != [] && !(|cs| == 1 && cs[0].token == Semicolon) {
      var text, tok, tail := PrintBody(cs[0]) + PrintRedirs(cs[0].redirs), PrintToken(cs[0].token), PrintList(cs[1..]);
      assert PrintList(cs) == text + (tok + tail);
      Associate(text, tok + tail, rest);
      Associate(tok, tail, rest);
    }
  }

  lemma {:induction false} TreesEqs(tasks: seq<Task>, cs: seq<Command>, at: nat)
    ensures cs == [] ==> tasks + Trees(cs, at) == tasks
    ensures cs != [] ==> tasks + Trees(cs, at) == tasks + [Tree(cs[0], at)] + Trees(cs[1..], at)
    ensures |cs| == 1 ==> tasks + Trees(cs, at) == tasks + [Tree(cs[0], at)]
  {
    hide Tree;
    if cs != [] {
      assert Trees(cs, at) == [Tree(cs[0], at)] + Trees(cs[1..], at);
      Associate(tasks, [Tree(cs[0], at)], Trees(cs[1..], at));
      if |cs| == 1 {
        assert Trees(cs[1..], at) == [];
      }
    }
  }

  lemma {:induction false} ListParses(cs: seq<Command>, rest: string, tasks: seq<Task>, at: nat, env: Env)
    requires (forall i :: 0 <= i < |cs| ==> PrintableCommand(cs[i])) && (rest == "" || rest[0] == ')')
    requires || |tasks| + |cs| < MAX_NUM_CMDS
             || (cs != [] && |tasks| + |cs| == MAX_NUM_CMDS && cs[|cs| - 1].token == Semicolon)
    ensures Run(PrintList(cs) + rest, Between(tasks, at), env) == Ok(tasks + Trees(cs, at), AfterEnd(rest), at)
    decreases cs, 0
  {
    hide Run;
    hide Settles;
    hide PrintList;
    hide PrintBody;
    hide PrintRedirs;
    hide PrintableCommand;
    hide Trees;
    hide Tree;
    PrintListEqs(cs, rest);
    TreesEqs(tasks, cs, at);
    if cs == [] {
      NothingParses(rest, tasks, at, env);
    } else {
      var c := cs[0];
      var t := Tree(c, at);
      TreeToken(c, at);
      if |cs| == 1 && c.token == Semicolon {
        var st := CommandParses(c, rest, tasks, at, env);
        EndParses(rest, st, tasks, t, at, env);
      } else {
        var tail := PrintList(cs[1..]) + rest;
        ListStart(cs[1..], rest);
        TokenStart(c.token, tail);
        var st := CommandParses(c, PrintToken(c.token) + tail, tasks, at, env);
        TokenParses(tail, st, tasks, t, at, env);
        ListParses(cs[1..], rest, tasks + [t], at, env);
      }
    }
  }

  lemma {:induction false} TreeToken(c: Command, at: nat)
    ensures Tree(c, at).token == c.token
  {
  }

  lemma {:induction false} TokenStart(t: Token, more: string)
    ensures var s := PrintToken(t) + more; s != "" && !IsDigit(s[0])
  {
  }

  /** Printing any commands within the parser's limits and parsing the text gives back their tree and reads it all. */
  lemma {:induction false} ParsePrint(cs: seq<Command>, env: Env)
    requires Printable(cs)
    ensures Parse(PrintList(cs), env) == Ok(Trees(cs, 0), "", 0)
  {
    hide Run;
    hide PrintList;
    hide Trees;
    hide PrintableCommand;
    ListParses(cs, "", [], 0, env);
    assert PrintList(cs) + "" == PrintList(cs) && [] + Trees(cs, 0) == Trees(cs, 0);
  }

  lemma {:induction false} WordStart(w: string)
    ensures PrintWord(w) != "" && PrintWord(w)[0] in ['\'', '"']
  {
    if w != "" {
      assert PrintWord(w)[0] == QuoteChar(w[0])[0];
    }
  }
}

/**
What becomes of the file name after a redirect operator. A word is made of plain and quoted
pieces; it is a redirect target exactly when none is quoted. A quotation switches the parser
to reading an argument, and the operator before it is forgotten but for one variable, which
makes the next operator an error.
*/
module ShellTargets {
  import opened ShellSyntax
  import opened CStrings
  import Decimal
  import opened ShellParser
  import opened ShellPrinter

  datatype Piece = Plain(text: string) | Quotation(quote: char, text: string)

  function Spell(ps: seq<Piece>): string
  {
    if ps == [] then "" else SpellPiece(ps[0]) + Spell(ps[1..])
  }

  function SpellPiece(p: Piece): string
  {
    match p case Plain(text) => text case Quotation(quote, text) => [quote] + text + [quote]
  }

  /** The word without its quotes. */
  function Value(ps: seq<Piece>): string
  {
    if ps == [] then "" else ps[0].text + Value(ps[1..])
  }

  predicate HasQuote(ps: seq<Piece>) { exists i :: 0 <= i < |ps| && ps[i].Quotation? }

  predicate GoodPiece(p: Piece)
  {
    match p
    case Plain(text) => forall i :: 0 <= i < |text| ==> Ordinary(text[i])
    case Quotation(quote, text) => (quote == '\'' || quote == '"') && quote !in text && '\0' !in text
  }

  predicate GoodPieces(ps: seq<Piece>) { forall i :: 0 <= i < |ps| ==> GoodPiece(ps[i]) }

  predicate Blank(gap: string) { forall i :: 0 <= i < |gap| ==> gap[i] == ' ' || gap[i] == '\t' }

  // ----- reading a word -----

  function Reading(st: St, ps: seq<Piece>): St
  {
    st.(temp := st.temp + Value(ps), mode := if HasQuote(ps) then NewArg else st.mode)
  }

  lemma {:induction false} PieceParses(p: Piece, more: string, st: St, env: Env)
    requires GoodPiece(p) && Roomy(st) && |st.temp| + |p.text| <= MAX_ARG_LEN
    ensures Run(SpellPiece(p) + more, st, env) ==
            Run(more, st.(temp := st.temp + p.text, mode := if p.Quotation? then NewArg else st.mode), env)
  {
    hide Run;
    hide SeparatorCase;
    hide RedirectCase;
    match p
    case Plain(text) =>
      OrdinaryParses(text, more, st, env);
    case Quotation(quote, text) =>
      QuotationParses(quote, text, more, st, env);
  }

  lemma {:induction false} PiecesParse(ps: seq<Piece>, more: string, st: St, env: Env)
    requires GoodPieces(ps) && Roomy(st) && |st.temp| + |Value(ps)| <= MAX_ARG_LEN
    ensures Run(Spell(ps) + more, st, env) == Run(more, Reading(st, ps), env)
    decreases |ps|
  {
    hide Run;
    if ps == [] {
      assert Spell(ps) + more == more && Reading(st, ps) == st;
    } else {
      hide SpellPiece;
      hide GoodPiece;
      var p, tail := ps[0], ps[1..];
      var st1 := st.(temp := st.temp + p.text, mode := if p.Quotation? then NewArg else st.mode);
      Associate(SpellPiece(p), Spell(tail), more);
      Associate(st.temp, p.text, Value(tail));
      assert HasQuote(ps) <==> p.Quotation? || HasQuote(tail) by {
        assert ps == [p] + tail;
      }
      PieceParses(p, Spell(tail) + more, st, env);
      PiecesParse(tail, more, st1, env);
    }
  }

  lemma {:induction false} BlanksParse(gap: string, more: string, st: St, env: Env)
    requires Blank(gap) && Roomy(st) && st.temp == "" && st.mode != NewArg && st.token == Unset
    ensures Run(gap + more, st, env) == Run(more, st, env)
    decreases |gap|
  {
    hide Run;
    if gap == "" {
      assert gap + more == more;
    } else {
      var s := gap + more;
      assert s[1..] == gap[1..] + more;
      assert Switch(s, st) == Next(st, s[1..]);
      assert Finish(st, env) == Done(st);
      RunNext(s, st, env);
      BlanksParse(gap[1..], more, st, env);
    }
  }

  // ----- the operator before it -----

  /** The descriptor of the redirect to come: as written before the operator, or 0 for `<` and 1 for the others. */
  ghost predicate FdFor(st: St, base: St, mode: Mode, fd: int)
  {
    FdKnown(st, base, fd) || (st == base && fd == if mode == Read then 0 else 1)
  }

  lemma {:induction false} OperatorSwitch(mode: Mode, rest: string, st: St, base: St, fd: int)
    requires Settled(base) && FdFor(st, base, mode, fd) && At(rest) != '<' && At(rest) != '>'
    ensures Switch(Operator(mode) + rest, st) == Redirect(base.(redirToken := RedirTokenOf(mode), redirFd := fd), rest)
  {
    hide Redirect;
    hide Decimal.Strtol;
    hide QuoteCase;
    hide SeparatorCase;
    if FdKnown(st, base, fd) {
      OperatorParses(mode, rest, st, base, fd);
    } else {
      var s := Operator(mode) + rest;
      assert s[|Operator(mode)|..] == rest;
      assert Switch(s, st) == RedirectCase(s, st);
    }
  }

  /** After the operator and blanks the parser waits for a file name. */
  lemma {:induction false} OperatorWaits(mode: Mode, gap: string, more: string, st: St, base: St, fd: int, env: Env)
    requires Blank(gap) && Settled(base) && Roomy(base) && FdFor(st, base, mode, fd)
    requires At(gap + more) != '<' && At(gap + more) != '>' && At(gap + more) != '&'
    ensures Run(Operator(mode) + (gap + more), st, env) == Run(more, AwaitingPath(base, mode, fd), env)
  {
    hide Run;
    var rest, waiting := gap + more, AwaitingPath(base, mode, fd);
    OperatorSwitch(mode, rest, st, base, fd);
    assert Redirect(base.(redirToken := RedirTokenOf(mode), redirFd := fd), rest) == Next(waiting, rest);
    assert Finish(waiting, env) == Done(waiting);
    OperatorFirst(mode, rest);
    assert Ready(Operator(mode) + rest, st);
    RunNext(Operator(mode) + rest, st, env);
    BlanksParse(gap, more, waiting, env);
  }

  lemma OperatorFirst(mode: Mode, rest: string)
    ensures At(Operator(mode) + rest) == '<' || At(Operator(mode) + rest) == '>'
  {
  }

  ghost predicate IsTarget(ps: seq<Piece>) { GoodPieces(ps) && Spell(ps) != "" && |Value(ps)| <= MAX_ARG_LEN }

  lemma {:induction false} TargetStart(ps: seq<Piece>, gap: string, more: string)
    requires GoodPieces(ps) && Spell(ps) != "" && Blank(gap)
    ensures At(gap + (Spell(ps) + more)) !in "<>&"
    decreases |ps|
  {
    if gap == "" {
      assert gap + (Spell(ps) + more) == Spell(ps) + more;
      if SpellPiece(ps[0]) == "" {
        assert Spell(ps) == Spell(ps[1..]);
        TargetStart(ps[1..], gap, more);
        assert gap + (Spell(ps[1..]) + more) == Spell(ps[1..]) + more;
      } else {
        assert (Spell(ps) + more)[0] == SpellPiece(ps[0])[0];
      }
    }
  }

  /** An operator and a word, whatever follows: the word is collected, in the mode that its quotes give. */
  lemma {:induction false} TargetParses(mode: Mode, gap: string, ps: seq<Piece>, more: string, st: St, base: St,
                                        fd: int, env: Env)
    requires IsTarget(ps) && Blank(gap) && Settled(base) && Roomy(base) && FdFor(st, base, mode, fd)
    ensures Run(Operator(mode) + (gap + (Spell(ps) + more)), st, env) ==
            Run(more, Reading(AwaitingPath(base, mode, fd), ps), env)
  {
    hide Run;
    hide GoodPieces;
    hide FdFor;
    TargetStart(ps, gap, more);
    OperatorWaits(mode, gap, Spell(ps) + more, st, base, fd, env);
    PiecesParse(ps, more, AwaitingPath(base, mode, fd), env);
  }

  /** The text of a word that no argument changes. */
  ghost predicate Literal(text: string) { '%' !in text && '\0' !in text && |text| <= MAX_ARG_LEN }

  /**
  When such a word ends it has become a redirect if and only if it has no quote. Otherwise
  it is one more argument, no operation is added, and the operator and descriptor stay set.
  */
  lemma {:induction false} TargetIsRedirectIff(mode: Mode, ps: seq<Piece>, base: St, fd: int, env: Env)
    requires IsTarget(ps) && Literal(Value(ps)) && (HasQuote(ps) || Value(ps) != "")
    requires Settled(base) && Roomy(base) && base.sub.NoShell?
    ensures var taken := TakeWord(Reading(AwaitingPath(base, mode, fd), ps), env);
            && taken.Done?
            && (taken.st == base.(ops := base.ops + FileOps(fd, Value(ps), mode)) <==> !HasQuote(ps))
            && (HasQuote(ps) ==>
                  taken.st == base.(argv := base.argv + [Word(Value(ps), base.at, Value(ps))],
                                    redirToken := RedirTokenOf(mode), redirFd := fd))
  {
    hide HasQuote;
    hide Value;
    hide GoodPieces;
    hide Spell;
    var value := Value(ps);
    var word := Reading(AwaitingPath(base, mode, fd), ps);
    assert "" + value == value;
    if HasQuote(ps) {
      WordTaken(value, word, env);
      assert |base.argv + [Word(value, base.at, value)]| > |base.argv|;
    } else {
      PlainTaken(mode, value, base, fd, env);
    }
  }

  lemma {:induction false} WordTaken(value: string, st: St, env: Env)
    requires Literal(value) && st.temp == value && st.mode != Redir && (st.mode == NewArg || value != "")
    requires st.sub.NoShell?
    ensures TakeWord(st, env) == Done(st.(temp := "", mode := Default, argv := st.argv + [Word(value, st.at, value)]))
  {
    ExpandPlain(value, st.at, env);
    UpToNulPlain(value);
    hide Expand;
    hide Conversions;
  }

  lemma {:induction false} PlainTaken(mode: Mode, value: string, base: St, fd: int, env: Env)
    requires Literal(value) && value != "" && Settled(base)
    ensures TakeWord(AwaitingPath(base, mode, fd).(temp := value), env) ==
            Done(base.(ops := base.ops + FileOps(fd, value, mode)))
  {
    ExpandPlain(value, base.at, env);
    UpToNulPlain(value);
    hide Expand;
    hide Conversions;
    assert ModeOf(RedirTokenOf(mode)) == mode;
  }

  /**
  An operator right after a word that is not a number, `cmd>f`: the word is an argument, as if
  a blank came between. (A number is the descriptor of the redirect.)
  */
  lemma {:induction false} OperatorEndsWord(s: string, st: St, base: St, env: Env)
    requires (At(s) == '<' || At(s) == '>') && st.temp != "" && Decimal.Strtol(st.temp).1 != |st.temp|
    requires Settles(st, base, env) && st.redirToken == NoRedir && st.redirFd == UNDEFINED_FD
    ensures Run(s, st, env) == Run(s, base, env) == Run(" " + s, st, env)
  {
    hide Run;
    SpaceParses(s, st, base, env);
    assert Switch(s, st) == Next(st, s) by {
      assert Switch(s, st) == RedirectCase(s, st);
      assert st.(redirFd := UNDEFINED_FD) == st;
    }
    RunNext(s, st, env);
  }

  // ----- what the operator leaves behind -----

  /** Whether reading goes on, without failing first, to a redirect operator outside further subshells. */
  ghost predicate ReachesOperator(s: string, st: St, env: Env)
    decreases |s|, |st.temp|
  {
    if Limit(st).Failed? then false
    else if At(s) == '(' then
      st.argv == [] &&
      var inner := Run(s[1..], Fresh(st.at), env);
      inner.Ok? && |inner.rest| < |s| - 1 &&
      var f := Finish(st.(sub := Shell(inner.tasks), at := inner.at), env);
      f.Done? && ReachesOperator(inner.rest, f.st, env)
    else if At(s) == '<' || At(s) == '>' then true
    else
      match Switch(s, st)
      case Err(_) => false
      case Again(st', rest) => ReachesOperator(rest, st', env)
      case Next(st', rest) => Finish(st', env).Done? && ReachesOperator(rest, Finish(st', env).st, env)
      case Stop(_, _) => false
  }

  /** A state with an operator and descriptor left over. */
  ghost function Marked(st: St, tok: RedirToken, fd: int): St { st.(redirToken := tok, redirFd := fd) }

  ghost predicate Unmarked(st: St) { st.mode != Redir && st.redirToken == NoRedir }

  /** The moves of a marked and an unmarked state, away from redirect operators. */
  ghost predicate MovesAlike(m: Move, n: Move, tok: RedirToken)
  {
    match n
    case Err(_) => m == n
    case Again(st, rest) => Unmarked(st) && m.Again? && m.rest == rest && m.st == Marked(st, tok, m.st.redirFd)
    case Next(st, rest) => Unmarked(st) && m.Next? && m.rest == rest && m.st == Marked(st, tok, m.st.redirFd)
    case Stop(st, rest) => Unmarked(st) && m.Stop? && m.rest == rest && m.st == Marked(st, tok, m.st.redirFd)
  }

  lemma {:induction false} SwitchMarked(s: string, st: St, tok: RedirToken, fd: int)
    requires Unmarked(st) && At(s) != '<' && At(s) != '>'
    ensures MovesAlike(Switch(s, Marked(st, tok, fd)), Switch(s, st), tok)
  {
    hide QuoteCase;
    hide SeparatorCase;
    hide RedirectCase;
    if At(s) == '\'' || At(s) == '"' {
      QuoteMarked(s, st, tok, fd);
    } else if At(s) == '&' || At(s) == '|' {
      SeparatorMarked(s, st, tok, fd);
    }
  }

  lemma {:induction false} QuoteMarked(s: string, st: St, tok: RedirToken, fd: int)
    requires Unmarked(st) && s != "" && s[0] != '\0'
    ensures MovesAlike(QuoteCase(s, Marked(st, tok, fd)), QuoteCase(s, st), tok)
  {
  }

  lemma {:induction false} SeparatorMarked(s: string, st: St, tok: RedirToken, fd: int)
    requires Unmarked(st) && s != "" && s[0] != '\0'
    ensures MovesAlike(SeparatorCase(s, Marked(st, tok, fd)), SeparatorCase(s, st), tok)
  {
  }

  lemma {:induction false} FinishMarked(st: St, tok: RedirToken, fd: int, env: Env)
    requires Unmarked(st)
    ensures var f, g := Finish(Marked(st, tok, fd), env), Finish(st, env);
            if g.Failed? then f == g else f.Done? && Unmarked(g.st) && f.st == Marked(g.st, tok, fd)
  {
    hide Expand;
    hide Conversions;
  }

  lemma OperatorFails(s: string, st: St, env: Env)
    requires Limit(st).Done? && (At(s) == '<' || At(s) == '>') && st.redirToken != NoRedir
    ensures Run(s, st, env) == Fail(UnexpectedRedirect)
  {
    assert Switch(s, st) == Err(UnexpectedRedirect);
  }

  /**
  For every text: with an operator left over, parsing fails if it reaches another one at this
  level of nesting, and is otherwise the parse without it.
  */
  lemma {:induction false} LeftoverRun(s: string, st: St, tok: RedirToken, fd: int, env: Env)
    requires Unmarked(st) && tok != NoRedir
    ensures Run(s, Marked(st, tok, fd), env) ==
            if ReachesOperator(s, st, env) then Fail(UnexpectedRedirect) else Run(s, st, env)
    decreases |s|, |st.temp|
  {
    hide Switch;
    hide Finish;
    var marked := Marked(st, tok, fd);
    assert Limit(marked).Failed? <==> Limit(st).Failed?;
    if Limit(st).Done? {
      if At(s) == '(' {
        LeftoverParen(s, st, tok, fd, env);
      } else if At(s) == '<' || At(s) == '>' {
        OperatorFails(s, marked, env);
      } else {
        SwitchMarked(s, st, tok, fd);
        var m, n := Switch(s, marked), Switch(s, st);
        if n.Again? {
          LeftoverRun(n.rest, n.st, tok, m.st.redirFd, env);
        } else if !n.Err? {
          FinishMarked(n.st, tok, m.st.redirFd, env);
          if n.Next? && Finish(n.st, env).Done? {
            LeftoverRun(n.rest, Finish(n.st, env).st, tok, m.st.redirFd, env);
          }
        }
      }
    }
  }

  lemma {:induction false} LeftoverParen(s: string, st: St, tok: RedirToken, fd: int, env: Env)
    requires Unmarked(st) && tok != NoRedir && Limit(st).Done? && At(s) == '('
    ensures Run(s, Marked(st, tok, fd), env) ==
            if ReachesOperator(s, st, env) then Fail(UnexpectedRedirect) else Run(s, st, env)
    decreases |s|, |st.temp|, 0
  {
    hide Finish;
    if st.argv == [] {
      var inner := Run(s[1..], Fresh(st.at), env);
      if inner.Ok? && |inner.rest| < |s| - 1 {
        var st1 := st.(sub := Shell(inner.tasks), at := inner.at);
        FinishMarked(st1, tok, fd, env);
        assert Marked(st1, tok, fd) == Marked(st, tok, fd).(sub := Shell(inner.tasks), at := inner.at);
        if Finish(st1, env).Done? {
          LeftoverRun(inner.rest, Finish(st1, env).st, tok, fd, env);
        }
      }
    }
  }

  /**
  A redirect to a word with a quote in it, whatever follows: the parse is that of the text
  without the operator, unless it then reaches a redirect operator at this level; if so, it fails.
  */
  lemma {:induction false} QuotedTargetDropped(mode: Mode, gap: string, ps: seq<Piece>, more: string, st: St,
                                               base: St, fd: int, env: Env)
    requires IsTarget(ps) && HasQuote(ps) && Blank(gap) && Settled(base) && Roomy(base) && FdFor(st, base, mode, fd)
    ensures Run(Operator(mode) + (gap + (Spell(ps) + more)), st, env) ==
            if ReachesOperator(more, Reading(base, ps), env) then Fail(UnexpectedRedirect)
            else Run(Spell(ps) + more, base, env)
  {
    hide Run;
    hide ReachesOperator;
    hide GoodPieces;
    hide FdFor;
    hide HasQuote;
    TargetParses(mode, gap, ps, more, st, base, fd, env);
    PiecesParse(ps, more, base, env);
    var word := Reading(base, ps);
    assert Reading(AwaitingPath(base, mode, fd), ps) == Marked(word, RedirTokenOf(mode), fd);
    LeftoverRun(more, word, RedirTokenOf(mode), fd, env);
  }

  /** A command and a quoted target: two arguments and no redirect. */
  lemma {:induction false} QuotedTargetIsArgument(mode: Mode, ws: seq<Piece>, gap: string, ps: seq<Piece>, env: Env)
    requires IsTarget(ws) && Literal(Value(ws)) && (HasQuote(ws) || Value(ws) != "")
    requires Blank(gap) && IsTarget(ps) && Literal(Value(ps)) && HasQuote(ps)
    ensures Parse(Spell(ws) + (" " + (Operator(mode) + (gap + Spell(ps)))), env) ==
            Ok([Task([Word(Value(ws), 0, Value(ws)), Word(Value(ps), 0, Value(ps))], NoShell, [], Semicolon)], "", 0)
  {
    hide Run;
    hide HasQuote;
    hide Value;
    hide IsTarget;
    hide Literal;
    hide Spell;
    hide Operator;
    hide ReachesOperator;
    hide FdKnown;
    var first, second := Word(Value(ws), 0, Value(ws)), Word(Value(ps), 0, Value(ps));
    var base := Fresh(0).(argv := [first]);
    var fd := if mode == Read then 0 else 1;
    assert Spell(ps) + "" == Spell(ps);
    FirstWord(ws, Operator(mode) + (gap + Spell(ps)), env);
    QuotedTargetDropped(mode, gap, ps, "", base, base, fd, env);
    NothingReached(Reading(base, ps), env);
    LastWord(ps, base, env);
    assert base.argv + [second] == [first, second];
  }

  lemma {:induction false} FirstWord(ws: seq<Piece>, more: string, env: Env)
    requires IsTarget(ws) && Literal(Value(ws)) && (HasQuote(ws) || Value(ws) != "")
    ensures Run(Spell(ws) + (" " + more), Fresh(0), env) ==
            Run(more, Fresh(0).(argv := [Word(Value(ws), 0, Value(ws))]), env)
  {
    hide Run;
    hide HasQuote;
    hide Value;
    hide GoodPieces;
    var st, base := Reading(Fresh(0), ws), Fresh(0).(argv := [Word(Value(ws), 0, Value(ws))]);
    assert "" + Value(ws) == Value(ws) && [] + base.argv == base.argv;
    PiecesParse(ws, " " + more, Fresh(0), env);
    WordTaken(Value(ws), st, env);
    assert TakeWord(st, env) == Done(base);
    SpaceParses(more, st, base, env);
  }

  lemma {:induction false} LastWord(ps: seq<Piece>, base: St, env: Env)
    requires IsTarget(ps) && Literal(Value(ps)) && HasQuote(ps)
    requires Settled(base) && Roomy(base) && base.sub.NoShell?
    ensures Run(Spell(ps), base, env) ==
            var argv := base.argv + [Word(Value(ps), base.at, Value(ps))];
            Ok(base.tasks + [Task(argv, NoShell, base.ops, Semicolon)], "", base.at)
  {
    hide Run;
    hide HasQuote;
    hide Value;
    hide GoodPieces;
    hide TakeWord;
    var word := Reading(base, ps);
    assert "" + Value(ps) == Value(ps) && Spell(ps) + "" == Spell(ps);
    PiecesParse(ps, "", base, env);
    WordTaken(Value(ps), word, env);
    TakenWithToken(word, Semicolon, env);
    assert Switch("", word) == Stop(word.(token := Set(Semicolon)), "");
    RunStop("", word, env);
  }

  lemma NothingReached(st: St, env: Env)
    ensures !ReachesOperator("", st, env)
  {
  }

  /** A quoted target, and later a redirect of another command: the whole is refused. */
  lemma {:induction false} LaterRedirectFails(mode: Mode, gap: string, ps: seq<Piece>, qs: seq<Piece>, rest: string,
                                              st: St, base: St, fd: int, env: Env)
    requires Blank(gap) && IsTarget(ps) && HasQuote(ps) && Literal(Value(ps)) && GoodPieces(qs) && Literal(Value(qs))
    requires Settled(base) && Roomy(base) && FdFor(st, base, mode, fd) && base.sub.NoShell?
    requires |base.tasks| + 1 < MAX_NUM_CMDS
    ensures Run(Operator(mode) + (gap + (Spell(ps) + (";" + (Spell(qs) + (">" + rest))))), st, env) ==
            Fail(UnexpectedRedirect)
  {
    hide Run;
    hide GoodPieces;
    hide FdFor;
    hide HasQuote;
    var more, more' := ";" + (Spell(qs) + (">" + rest)), Spell(qs) + (">" + rest);
    TargetParses(mode, gap, ps, more, st, base, fd, env);
    TargetIsRedirectIff(mode, ps, base, fd, env);
    var word := Reading(AwaitingPath(base, mode, fd), ps);
    SemicolonSwitch(more', word);
    var argv := base.argv + [Word(Value(ps), base.at, Value(ps))];
    var tasks := base.tasks + [Task(argv, NoShell, base.ops, Semicolon)];
    var left := Marked(Between(tasks, base.at), RedirTokenOf(mode), fd);
    TakenWithToken(word, Semicolon, env);
    assert Finish(word.(token := Set(Semicolon)), env) == Done(left);
    RunNext(more, word, env);
    PiecesParse(qs, ">" + rest, left, env);
    OperatorFails(">" + rest, Reading(left, qs), env);
  }

  lemma {:induction false} SemicolonSwitch(tail: string, st: St)
    ensures Switch(";" + tail, st) == Next(st.(token := Set(Semicolon)), tail)
  {
    hide QuoteCase;
    hide SeparatorCase;
    hide RedirectCase;
    var s := ";" + tail;
    assert s[0] == ';' && s[1..] == tail;
  }

  lemma {:induction false} TakenWithToken(st: St, token: Token, env: Env)
    ensures var a, b := TakeWord(st, env), TakeWord(st.(token := Set(token)), env);
            if a.Failed? then b == a else b.Done? && b.st == a.st.(token := Set(token))
  {
    hide Expand;
    hide Conversions;
  }

  /** What an operator with no word leaves of its command: the command without the redirect. */
  function Unredirected(base: St, token: Token): Task { Task(base.argv, base.sub, base.ops, token) }

  /**
  An operator with no word before the end of its command is not an error: the command is
  complete without it and, whatever the separator, the parser goes on waiting for a file name
  in the next one. (Right after the operator, `&` would be read as the start of a descriptor.)
  */
  lemma {:induction false} EmptyTargetMovesOn(mode: Mode, gap: string, t: Token, more: string, st: St, base: St,
                                              fd: int, env: Env)
    requires Blank(gap) && Settled(base) && Roomy(base) && FdFor(st, base, mode, fd)
    requires base.argv != [] || base.sub.Shell?
    requires gap == "" ==> t != Background && t != And
    requires Separates(t, more)
    ensures Run(Operator(mode) + (gap + (PrintToken(t) + more)), st, env) ==
            Run(more, AwaitingPath(Between(base.tasks + [Unredirected(base, t)], base.at), mode, fd), env)
  {
    hide Run;
    hide FdFor;
    hide Switch;
    var next := Between(base.tasks + [Unredirected(base, t)], base.at);
    var waiting, s := AwaitingPath(base, mode, fd), PrintToken(t) + more;
    TokenFirst(gap, t, more);
    OperatorWaits(mode, gap, s, st, base, fd, env);
    TokenSwitch(t, more, waiting);
    assert Finish(waiting.(token := Set(t)), env) == Done(AwaitingPath(next, mode, fd));
    assert Ready(s, waiting);
    RunNext(s, waiting, env);
  }

  lemma {:induction false} TokenFirst(gap: string, t: Token, more: string)
    requires Blank(gap) && (gap == "" ==> t != Background && t != And)
    ensures At(gap + (PrintToken(t) + more)) !in "<>&" && At(PrintToken(t) + more) != '('
  {
    var s := PrintToken(t) + more;
    assert s[0] == PrintToken(t)[0];
    assert gap == "" ==> gap + s == s;
    assert gap != "" ==> (gap + s)[0] == gap[0];
  }

  /** So the redirect falls to the next command, whose first plain word is its file. */
  lemma {:induction false} NextWordIsTarget(mode: Mode, gap: string, path: string, more: string, next: St, fd: int,
                                            env: Env)
    requires Blank(gap) && GoodPath(path) && Settled(next) && Roomy(next)
    ensures var word := AwaitingPath(next, mode, fd).(temp := path);
            && Run(gap + (path + more), AwaitingPath(next, mode, fd), env) == Run(more, word, env)
            && Settles(word, next.(ops := next.ops + FileOps(fd, path, mode)), env)
  {
    hide Run;
    BlanksParse(gap, path + more, AwaitingPath(next, mode, fd), env);
    OrdinaryParses(path, more, AwaitingPath(next, mode, fd), env);
    assert "" + path == path;
    FileSettles(mode, path, next, fd, env);
  }

  /** At the end of the text or of a subshell the redirect disappears: the command is complete and the list ends. */
  lemma {:induction false} EmptyTargetAtEnd(mode: Mode, gap: string, rest: string, st: St, base: St, fd: int, env: Env)
    requires Blank(gap) && Settled(base) && Roomy(base) && FdFor(st, base, mode, fd)
    requires base.argv != [] || base.sub.Shell?
    requires rest == "" || rest[0] == ')'
    ensures Run(Operator(mode) + (gap + rest), st, env) ==
            Ok(base.tasks + [Unredirected(base, Semicolon)], AfterEnd(rest), base.at)
  {
    hide Run;
    hide FdFor;
    var waiting := AwaitingPath(base, mode, fd);
    assert At(gap + rest) in " \t)\0" by {
      assert gap == "" ==> gap + rest == rest;
    }
    OperatorWaits(mode, gap, rest, st, base, fd, env);
    assert Switch(rest, waiting) == Stop(waiting.(token := Set(Semicolon)), AfterEnd(rest));
    RunStop(rest, waiting, env);
  }
}

/** `command_parser` as the source writes it: indices into the format, one loop, recursion for subshells. */
module ShellParserLoop {
  import opened ShellSyntax
  import opened CStrings
  import opened Decimal
  import opened ShellParser

  /** `format[i]`, with the terminator at the end. */
  function CharAt(format: string, i: nat): (c: char)
    requires i <= |format|
    ensures c == At(format[i..])
  {
    if i < |format| then format[i] else '\0'
  }

  lemma {:induction false} QuotedFrom(s: string, q: char, k: nat)
    requires q != '\0' && k <= |s|
    requires forall j :: 0 <= j < k ==> s[j] != q && s[j] != '\0'
    ensures Quoted(s, q) == k + Quoted(s[k..], q)
    decreases k
  {
    if k > 0 {
      QuotedFrom(s[1..], q, k - 1);
      assert s[1..][k - 1..] == s[k..];
    }
  }

  /** The inner loop: copy characters until the closing quote, the end, or one too many. */
  method CopyQuoted(s: string, q: char, temp: string) returns (text: string, k: nat)
    requires q != '\0' && |temp| <= MAX_ARG_LEN
    ensures k <= |s| && text == temp + s[..k]
    ensures if |temp| + Quoted(s, q) > MAX_ARG_LEN then |text| > MAX_ARG_LEN
            else k == Quoted(s, q) && |text| <= MAX_ARG_LEN
  {
    text, k := temp, 0;
    while CharAt(s, k) != '\0' && CharAt(s, k) != q && |text| <= MAX_ARG_LEN
      invariant k <= |s| && text == temp + s[..k]
      invariant forall j :: 0 <= j < k ==> s[j] != q && s[j] != '\0'
      decreases |s| - k
    {
      text := text + [s[k]];
      k := k + 1;
    }
    QuotedFrom(s, q, k);
  }

  method ReadQuote(format: string, i: nat, st: St) returns (m: Move, next: nat)
    requires i < |format| && format[i] != '\0' && |st.temp| <= MAX_ARG_LEN
    ensures m == QuoteCase(format[i..], st)
    ensures m.Again? ==> i < next <= |format| && m.rest == format[next..]
  {
    var q, s := format[i], format[i + 1..];
    assert format[i..][1..] == s;
    var text, k := CopyQuoted(s, q, st.temp);
    next := i + 1 + k;
    assert s[k..] == format[next..];
    if |text| > MAX_ARG_LEN {
      m := Err(ArgTooLong);
    } else if CharAt(format, next) == '\0' {
      m := Err(UnterminatedQuote);
    } else {
      next := next + 1;
      m := Again(st.(temp := text, mode := NewArg), format[next..]);
      assert format[i..][k + 2..] == format[next..];
    }
  }

  /** `&n` after a redirect operator, or a file name to come. */
  method ReadTarget(format: string, i: nat, st: St) returns (m: Move, next: nat)
    requires i <= |format|
    ensures m == Redirect(st, format[i..])
    ensures !m.Err? ==> i <= next <= |format| && m.rest == format[next..]
  {
    next := i;
    if CharAt(format, i) == '&' {
      next := i + 1;
      assert format[i..][1..] == format[next..];
      var v := Strtol(format[next..]);
      if v.1 == 0 {
        return Err(RedirectError), next;
      }
      var fd := Int32(v.0);
      var ops;
      if st.redirFd == AMP_FD {
        ops := [Dup2(1, fd), Dup2(2, fd)];
      } else {
        ops := [Dup2(fd, st.redirFd)];
      }
      assert format[next..][v.1..] == format[next + v.1..];
      next := next + v.1;
      m := Next(st.(ops := st.ops + ops, redirToken := NoRedir, redirFd := UNDEFINED_FD), format[next..]);
    } else {
      m := Next(st.(mode := Redir), format[i..]);
    }
  }

  method ReadRedirect(format: string, i: nat, st: St) returns (m: Move, next: nat)
    requires i < |format| && format[i] != '\0'
    ensures m == RedirectCase(format[i..], st)
    ensures !m.Err? ==> i <= next <= |format| && m.rest == format[next..]
  {
    hide Strtol;
    hide Int32;
    hide Redirect;
    next := i;
    if st.redirToken != NoRedir {
      return Err(UnexpectedRedirect), next;
    }
    var c, redirFd := format[i], st.redirFd;
    if st.temp != "" {
      var v := Strtol(st.temp);
      if v.1 != |st.temp| {
        return Next(st.(redirFd := UNDEFINED_FD), format[i..]), next;
      }
      redirFd := Int32(v.0);
    } else if redirFd == UNDEFINED_FD {
      redirFd := if c == '<' then 0 else 1;
    }
    assert format[i..][1..] == format[i + 1..];
    if CharAt(format, i + 1) == c {
      assert format[i..][2..] == format[i + 2..];
      m, next := ReadTarget(format, i + 2, st.(temp := "", redirFd := redirFd, redirToken := DoubleRedir(c)));
    } else {
      m, next := ReadTarget(format, i + 1, st.(temp := "", redirFd := redirFd, redirToken := SingleRedir(c)));
    }
  }

  /** One pass through the switch, for every character but `(`. */
  method ReadNext(format: string, i: nat, st: St) returns (m: Move, next: nat)
    requires i <= |format| && |st.temp| <= MAX_ARG_LEN && CharAt(format, i) != '('
    ensures m == Switch(format[i..], st)
    ensures !m.Err? ==> i <= next <= |format| && m.rest == format[next..]
  {
    var c := CharAt(format, i);
    next := i;
    assert i < |format| ==> format[i..][1..] == format[i + 1..];
    if c == ' ' || c == '\t' {
      next := i + 1;
      m := Next(st, format[next..]);
    } else if c == ')' {
      next := i + 1;
      m := Stop(st.(token := Set(Semicolon)), format[next..]);
    } else if c == '`' {
      m := Err(CommandSubstitution);
    } else if c == '\'' || c == '"' {
      m, next := ReadQuote(format, i, st);
    } else if c == '&' || c == '|' {
      if st.token.Set? {
        m := Err(UnexpectedToken);
      } else if c == '&' && CharAt(format, i + 1) == '>' {
        next := i + 1;
        m := Again(st.(redirFd := AMP_FD), format[next..]);
      } else if CharAt(format, i + 1) == c {
        next := i + 2;
        assert format[i..][2..] == format[i + 2..];
        m := Next(st.(token := Set(Double(c))), format[next..]);
      } else {
        next := i + 1;
        m := Next(st.(token := Set(Single(c))), format[next..]);
      }
    } else if c == ';' {
      next := i + 1;
      m := Next(st.(token := Set(Semicolon)), format[next..]);
    } else if c == '\0' {
      m := Stop(st.(token := Set(Semicolon)), format[next..]);
    } else if c == '<' || c == '>' {
      m, next := ReadRedirect(format, i, st);
    } else {
      next := i + 1;
      m := Again(st.(temp := st.temp + [c]), format[next..]);
    }
  }

  method CommandParser(format: string, at: nat, env: Env) returns (r: Result)
    ensures r == Run(format, Fresh(at), env)
    decreases |format|
  {
    hide Switch;
    hide Finish;
    var st := Fresh(at);
    var i := 0;
    assert format[0..] == format;
    while true
      invariant i <= |format|
      invariant Run(format, Fresh(at), env) == Run(format[i..], st, env)
      decreases |format| - i, |st.temp|
    {
      var limit := Limit(st);
      if limit.Failed? {
        return Fail(limit.error);
      }
      var stop := false;
      if CharAt(format, i) == '(' {
        if st.argv != [] {
          return Fail(UnexpectedParen);
        }
        i := i + 1;
        assert format[i - 1..][1..] == format[i..];
        var inner := CommandParser(format[i..], st.at, env);
        if inner.Fail? {
          return inner;
        }
        var consumed := |format[i..]| - |inner.rest|;
        if consumed < 1 {
          return Fail(BadSubshell);
        }
        RestIsSuffix(format[i..], Fresh(st.at), env);
        i := i + consumed;
        st := st.(sub := Shell(inner.tasks), at := inner.at);
      } else {
        var m, next := ReadNext(format, i, st);
        if m.Err? {
          return Fail(m.error);
        }
        i, st, stop := next, m.st, m.Stop?;
        if m.Again? {
          continue;
        }
      }
      var f := Finish(st, env);
      if f.Failed? {
        return Fail(f.error);
      }
      st := f.st;
      if stop {
        return Ok(st.tasks, format[i..], st.at);
      }
    }
  }

  // ----- what a parse leaves unread is the tail of its text -----

  ghost predicate Suffix(rest: string, s: string)
  {
    |rest| <= |s| && rest == s[|s| - |rest|..]
  }

  lemma {:induction false} Drop(s: string, k: nat)
    requires k <= |s|
    ensures Suffix(s[k..], s)
  {
  }

  lemma {:induction false} SuffixTransitive(a: string, b: string, c: string)
    requires Suffix(a, b) && Suffix(b, c)
    ensures Suffix(a, c)
  {
  }

  lemma {:induction false} RedirectSuffix(s: string, st: St)
    ensures !Redirect(st, s).Err? ==> Suffix(Redirect(st, s).rest, s)
  {
    hide Strtol;
    hide Int32;
    hide Suffix;
    Drop(s, 0);
    if At(s) == '&' {
      Drop(s, 1);
      var n := Strtol(s[1..]).1;
      Drop(s[1..], n);
      SuffixTransitive(s[1..][n..], s[1..], s);
    } else {
      assert s[0..] == s;
    }
  }

  lemma {:induction false} RedirectCaseSuffix(s: string, st: St)
    requires s != "" && s[0] != '\0'
    ensures !RedirectCase(s, st).Err? ==> Suffix(RedirectCase(s, st).rest, s)
  {
    hide Redirect;
    hide Strtol;
    hide Suffix;
    var fd :=
      if st.temp != "" then Int32(Strtol(st.temp).0)
      else if st.redirFd != UNDEFINED_FD then st.redirFd
      else if s[0] == '<' then 0 else 1;
    var twice := At(s[1..]) == s[0];
    var k := if twice then 2 else 1;
    var st1 := st.(temp := "", redirFd := fd, redirToken := if twice then DoubleRedir(s[0]) else SingleRedir(s[0]));
    Drop(s, 0);
    assert s[0..] == s;
    Drop(s, k);
    RedirectSuffix(s[k..], st1);
    if !Redirect(st1, s[k..]).Err? {
      SuffixTransitive(Redirect(st1, s[k..]).rest, s[k..], s);
    }
  }

  lemma {:induction false} SwitchSuffix(s: string, st: St)
    ensures !Switch(s, st).Err? ==> Suffix(Switch(s, st).rest, s)
  {
    hide RedirectCase;
    hide Quoted;
    hide Suffix;
    assert s[0..] == s;
    forall k | 0 <= k <= |s|
      ensures Suffix(s[k..], s)
    {
      Drop(s, k);
    }
    if At(s) == '<' || At(s) == '>' {
      RedirectCaseSuffix(s, st);
    }
  }

  lemma {:induction false} RestIsSuffix(s: string, st: St, env: Env)
    ensures var r := Run(s, st, env);
            r.Ok? ==> Suffix(r.rest, s)
    decreases |s|, |st.temp|
  {
    hide Switch;
    hide Finish;
    hide Suffix;
    var r := Run(s, st, env);
    if Limit(st).Done? && r.Ok? {
      if At(s) == '(' {
        RestIsSuffix(s[1..], Fresh(st.at), env);
        Drop(s, 1);
        var inner := Run(s[1..], Fresh(st.at), env);
        var f := Finish(st.(sub := Shell(inner.tasks), at := inner.at), env);
        RestIsSuffix(inner.rest, f.st, env);
        SuffixTransitive(inner.rest, s[1..], s);
        SuffixTransitive(r.rest, inner.rest, s);
      } else {
        SwitchSuffix(s, st);
        var m := Switch(s, st);
        if m.Again? {
          RestIsSuffix(m.rest, m.st, env);
          SuffixTransitive(r.rest, m.rest, s);
        } else if m.Next? {
          RestIsSuffix(m.rest, Finish(m.st, env).st, env);
          SuffixTransitive(r.rest, m.rest, s);
        }
      }
    }
  }
}

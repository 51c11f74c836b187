/**
The words of a parsed tree are the words that were read, in reading order, and what becomes
of the arguments.
*/
module ShellSources {
  import opened ShellSyntax
  import opened CStrings
  import opened ShellParser
  import opened ShellParserProps
  import opened ShellPrinter
  import opened ShellReading

  // ----- the words of the tree, in reading order -----

  /** What a word is read from: its format and its first argument. */
  datatype Source = Source(format: string, at: nat)

  function ArgvSources(ws: seq<Word>): seq<Source>
  {
    seq(|ws|, i requires 0 <= i < |ws| => Source(ws[i].format, ws[i].at))
  }

  function ShellSources(sub: Shell): seq<Source>
    decreases sub
  {
    match sub case NoShell => [] case Shell(tasks) => TreeSources(tasks)
  }

  /** The words of a tree from left to right, with those of a subshell in its place. */
  function TreeSources(ts: seq<Task>): seq<Source>
    decreases ts
  {
    if ts == [] then [] else ArgvSources(ts[0].argv) + ShellSources(ts[0].sub) + TreeSources(ts[1..])
  }

  /** The words collected so far. */
  function Collected(st: St): seq<Source>
  {
    TreeSources(st.tasks) + (ArgvSources(st.argv) + ShellSources(st.sub))
  }

  /** The words taken that are not redirect targets. */
  function ItemSources(items: seq<Item>): seq<Source>
  {
    if items == [] then []
    else (if items[0].target then [] else [Source(items[0].format, items[0].at)]) + ItemSources(items[1..])
  }

  /** `a` is got from `b` by leaving out elements. */
  ghost predicate Subsequence(a: seq<Source>, b: seq<Source>)
  {
    a == [] || (b != [] && ((a[0] == b[0] && Subsequence(a[1..], b[1..])) || Subsequence(a, b[1..])))
  }

  lemma {:induction false} SubsequenceItself(a: seq<Source>)
    ensures Subsequence(a, a)
    decreases |a|
  {
    if a != [] {
      SubsequenceItself(a[1..]);
    }
  }

  lemma {:induction false} SubsequenceThen(a: seq<Source>, b: seq<Source>, c: seq<Source>)
    requires Subsequence(a, b)
    ensures Subsequence(a + c, b + c)
    decreases |b|
  {
    if a == [] {
      assert a + c == c;
      SubsequenceSuffix(b, c);
    } else {
      assert (b + c)[0] == b[0] && (b + c)[1..] == b[1..] + c;
      assert (a + c)[0] == a[0] && (a + c)[1..] == a[1..] + c;
      if a[0] == b[0] && Subsequence(a[1..], b[1..]) {
        SubsequenceThen(a[1..], b[1..], c);
      } else {
        SubsequenceThen(a, b[1..], c);
      }
    }
  }

  lemma {:induction false} SubsequenceSuffix(b: seq<Source>, c: seq<Source>)
    ensures Subsequence(c, b + c)
    decreases |b|
  {
    if b == [] {
      assert b + c == c;
      SubsequenceItself(c);
    } else {
      assert (b + c)[1..] == b[1..] + c;
      SubsequenceSuffix(b[1..], c);
    }
  }

  lemma {:induction false} SubsequenceBefore(a: seq<Source>, b: seq<Source>, c: seq<Source>)
    requires Subsequence(b, c)
    ensures Subsequence(a + b, a + c)
    decreases |a|
  {
    if a == [] {
      assert a + b == b && a + c == c;
    } else {
      assert (a + b)[0] == (a + c)[0] == a[0] && (a + b)[1..] == a[1..] + b && (a + c)[1..] == a[1..] + c;
      SubsequenceBefore(a[1..], b, c);
    }
  }

  lemma {:induction false} SubsequenceTransitive(a: seq<Source>, b: seq<Source>, c: seq<Source>)
    requires Subsequence(a, b) && Subsequence(b, c)
    ensures Subsequence(a, c)
    decreases |b| + |c|
  {
    if a != [] {
      if b[0] == c[0] && Subsequence(b[1..], c[1..]) {
        if a[0] == b[0] && Subsequence(a[1..], b[1..]) {
          SubsequenceTransitive(a[1..], b[1..], c[1..]);
        } else {
          SubsequenceTransitive(a, b[1..], c[1..]);
        }
      } else {
        SubsequenceTransitive(a, b, c[1..]);
      }
    }
  }

  lemma {:induction false} TreeAppend(ts: seq<Task>, t: Task)
    ensures TreeSources(ts + [t]) == TreeSources(ts) + (ArgvSources(t.argv) + ShellSources(t.sub))
    decreases |ts|
  {
    hide ArgvSources;
    hide ShellSources;
    var last := ArgvSources(t.argv) + ShellSources(t.sub);
    if ts == [] {
      assert ts + [t] == [t] && [t][1..] == [];
      assert TreeSources([t]) == last + TreeSources([]);
      assert last + [] == last && [] + last == last;
    } else {
      assert (ts + [t])[0] == ts[0] && (ts + [t])[1..] == ts[1..] + [t];
      TreeAppend(ts[1..], t);
      Associate(ArgvSources(ts[0].argv) + ShellSources(ts[0].sub), TreeSources(ts[1..]), last);
    }
  }

  lemma {:induction false} ItemSourcesThen(a: seq<Item>, b: seq<Item>)
    ensures ItemSources(a + b) == ItemSources(a) + ItemSources(b)
    decreases |a|
  {
    if a == [] {
      assert a + b == b;
    } else {
      assert (a + b)[0] == a[0] && (a + b)[1..] == a[1..] + b;
      ItemSourcesThen(a[1..], b);
      Associate(if a[0].target then [] else [Source(a[0].format, a[0].at)], ItemSources(a[1..]), ItemSources(b));
    }
  }

  lemma {:induction false} TakenSources(st: St, m: Mark, env: Env)
    requires TakeWord(st, env).Done?
    ensures Collected(TakeWord(st, env).st) == Collected(st) + ItemSources(Taken(st, m))
  {
    hide Expand;
    hide Conversions;
    hide TreeSources;
    var items, t := Taken(st, m), TakeWord(st, env).st;
    if items == [] {
      assert Collected(st) + [] == Collected(st);
    } else {
      assert items[1..] == [] && items[0].target == (st.mode == Redir);
      var x, first := ItemSources(items), if st.mode == Redir then [] else [Source(st.temp, st.at)];
      assert x == first + ItemSources(items[1..]) && first + [] == first;
      assert x == first;
      assert ArgvSources(t.argv) == ArgvSources(st.argv) + x;
      assert st.mode != Redir ==> ShellSources(st.sub) == [] && ShellSources(t.sub) == [];
      Associate(TreeSources(st.tasks), ArgvSources(st.argv) + ShellSources(st.sub), x);
      assert ArgvSources(t.argv) + ShellSources(t.sub) == ArgvSources(st.argv) + ShellSources(st.sub) + x;
    }
  }

  lemma {:induction false} PushSources(st: St)
    ensures Collected(PushTask(st)) == Collected(st)
    ensures st.token.Set? ==> TreeSources(PushTask(st).tasks) == Collected(st)
  {
    hide TreeSources;
    hide ShellSources;
    NoShellSources();
    var p := PushTask(st);
    if (st.argv != [] || st.sub.Shell?) && st.token.Set? {
      TreeAppend(st.tasks, Task(st.argv, st.sub, st.ops, st.token.token));
      assert ArgvSources([]) + [] == [];
      assert Collected(p) == TreeSources(p.tasks) + [];
    } else if st.argv == [] && st.sub.NoShell? {
      assert ArgvSources(st.argv) + ShellSources(st.sub) == [];
    }
  }

  lemma NoShellSources()
    ensures ShellSources(NoShell) == []
  {
  }

  lemma {:induction false} FinishSources(st: St, m: Mark, env: Env)
    requires Finish(st, env).Done?
    ensures var f := Finish(st, env).st;
            && Collected(f) == Collected(st) + ItemSources(Taken(st, m))
            && (st.token.Set? ==> TreeSources(f.tasks) == Collected(f))
  {
    hide Collected;
    hide TreeSources;
    hide Taken;
    TakenSources(st, m, env);
    PushSources(TakeWord(st, env).st);
    TokenKept(st, env);
    hide TakeWord;
    hide PushTask;
  }

  lemma {:induction false} TokenKept(st: St, env: Env)
    requires TakeWord(st, env).Done?
    ensures TakeWord(st, env).st.token == st.token
  {
    hide Expand;
    hide Conversions;
  }

  /** Whether reading comes to a second subshell of one command when the first, which it replaces, has words. */
  ghost predicate Drops(s: string, st: St, m: Mark, env: Env)
    decreases |s|, |st.temp|
  {
    var it := Iterate(s, st, m, env);
    && it.Go?
    && (|| (At(s) == '(' && (ShellSources(st.sub) != [] || Drops(s[1..], Fresh(st.at), Unbegun(s[1..]), env)))
        || Drops(it.rest, it.st, it.mark, env))
  }

  lemma {:induction false} StepSources(s: string, st: St, m: Mark, env: Env)
    requires At(s) != '(' && !Iterate(s, st, m, env).Crash?
    ensures var it := Iterate(s, st, m, env);
            && Collected(it.st) == Collected(st) + ItemSources(it.items)
            && (it.End? ==> TreeSources(it.st.tasks) == Collected(it.st))
  {
    hide Switch;
    hide Finish;
    hide Taken;
    hide TreeSources;
    hide Collected;
    SwitchSafe(s, st);
    match Switch(s, st)
    case Again(st', _) =>
      SameCollected(st', st);
      assert Collected(st) + [] == Collected(st);
    case Next(st', _) =>
      SameCollected(st', st);
      FinishSources(st', AfterOperator(m, s, st'), env);
    case Stop(st', _) =>
      SameCollected(st', st);
      StopToken(s, st);
      FinishSources(st', m, env);
  }

  lemma {:induction false} SameCollected(a: St, b: St)
    requires a.argv == b.argv && a.sub == b.sub && a.tasks == b.tasks
    ensures Collected(a) == Collected(b)
  {
  }

  lemma {:induction false} StopToken(s: string, st: St)
    requires Switch(s, st).Stop?
    ensures Switch(s, st).st.token.Set?
  {
    hide QuoteCase;
    hide SeparatorCase;
    hide RedirectCase;
  }

  lemma {:induction false} SubsequenceLength(a: seq<Source>, b: seq<Source>)
    requires Subsequence(a, b)
    ensures |a| <= |b| && (|a| == |b| ==> a == b)
    decreases |b|
  {
    if a != [] {
      if a[0] == b[0] && Subsequence(a[1..], b[1..]) {
        SubsequenceLength(a[1..], b[1..]);
        assert a == [a[0]] + a[1..] && b == [b[0]] + b[1..];
      } else {
        SubsequenceLength(a, b[1..]);
      }
    }
  }

  lemma {:induction false} Cancel(a: seq<Source>, b: seq<Source>, c: seq<Source>)
    ensures a + c == b + c <==> a == b
  {
    if a + c == b + c {
      assert a == (a + c)[..|a|] && b == (b + c)[..|b|];
    }
  }

  /** What a subshell adds, given what its own list is read from. */
  lemma {:induction false} NestedSources(s: string, st: St, m: Mark, env: Env)
    requires At(s) == '(' && Iterate(s, st, m, env).Go?
    requires var nested := ItemSources(Items(s[1..], Fresh(st.at), Unbegun(s[1..]), env));
             Subsequence(TreeSources(Run(s[1..], Fresh(st.at), env).tasks), nested)
    ensures var it := Iterate(s, st, m, env);
            var nested := ItemSources(Items(s[1..], Fresh(st.at), Unbegun(s[1..]), env));
            && Subsequence(Collected(it.st), Collected(st) + ItemSources(it.items))
            && (Collected(it.st) == Collected(st) + ItemSources(it.items) <==>
                ShellSources(st.sub) == [] && TreeSources(Run(s[1..], Fresh(st.at), env).tasks) == nested)
  {
    hide Finish;
    hide Taken;
    hide Items;
    hide Run;
    hide TreeSources;
    hide Subsequence;
    hide ItemSources;
    IterateParen(s, st, m, env);
    var it, inner := Iterate(s, st, m, env), Run(s[1..], Fresh(st.at), env);
    hide Iterate;
    var st1 := st.(sub := Shell(inner.tasks), at := inner.at);
    var items := Items(s[1..], Fresh(st.at), Unbegun(s[1..]), env);
    var nested, taken := ItemSources(items), ItemSources(Taken(st1, m));
    FinishSources(st1, m, env);
    ItemSourcesThen(items, Taken(st1, m));
    ShellCollected(st, inner.tasks, inner.at, nested);
    hide Collected;
    hide ShellSources;
    SubsequenceThen(Collected(st1), Collected(st) + nested, taken);
    Associate(Collected(st), nested, taken);
    Cancel(Collected(st1), Collected(st) + nested, taken);
  }

  lemma {:induction false} ShellCollected(st: St, tasks: seq<Task>, at: nat, nested: seq<Source>)
    requires st.argv == [] && Subsequence(TreeSources(tasks), nested)
    ensures var st1 := st.(sub := Shell(tasks), at := at);
            && Subsequence(Collected(st1), Collected(st) + nested)
            && (Collected(st1) == Collected(st) + nested <==>
                ShellSources(st.sub) == [] && TreeSources(tasks) == nested)
  {
    hide TreeSources;
    hide Subsequence;
    var st1 := st.(sub := Shell(tasks), at := at);
    var before, first, second := TreeSources(st.tasks), ShellSources(st.sub), TreeSources(tasks);
    assert ShellSources(st1.sub) == second;
    assert ArgvSources([]) + first == first && ArgvSources([]) + second == second;
    Associate(before, first, nested);
    SubsequenceSuffix(first, nested);
    SubsequenceTransitive(second, nested, first + nested);
    SubsequenceBefore(before, second, first + nested);
    SubsequenceLength(second, nested);
    assert first == [] ==> first + nested == nested;
    assert |Collected(st1)| == |before| + |second| && |Collected(st) + nested| == |before| + |first| + |nested|;
  }

  /**
  For every text that parses: the words of the tree, subshells in their place, are words that
  were read, in the order in which they were; and they are all of them but redirect targets if
  and only if no subshell with words in it is replaced by a second.
  */
  lemma {:induction false} ReadingOrder(s: string, st: St, m: Mark, env: Env)
    ensures var r := Run(s, st, env);
            var read := Collected(st) + ItemSources(Items(s, st, m, env));
            r.Ok? ==>
              Subsequence(TreeSources(r.tasks), read) && (TreeSources(r.tasks) == read <==> !Drops(s, st, m, env))
    decreases |s|, |st.temp|
  {
    hide Switch;
    hide Finish;
    hide Taken;
    hide TreeSources;
    hide ItemSources;
    hide Collected;
    hide Subsequence;
    hide ShellSources;
    IterateIsRun(s, st, m, env);
    var it, r := Iterate(s, st, m, env), Run(s, st, env);
    if r.Ok? {
      if At(s) == '(' {
        ReadingOrder(s[1..], Fresh(st.at), Unbegun(s[1..]), env);
        FreshCollected(st.at, ItemSources(Items(s[1..], Fresh(st.at), Unbegun(s[1..]), env)));
        IterateParen(s, st, m, env);
        NestedSources(s, st, m, env);
      } else {
        StepSources(s, st, m, env);
        SubsequenceItself(Collected(it.st));
      }
      if it.Go? {
        ReadingOrder(it.rest, it.st, it.mark, env);
        var more := Items(it.rest, it.st, it.mark, env);
        GoSources(it, Collected(st), more, TreeSources(r.tasks));
      }
    }
  }

  lemma {:induction false} FreshCollected(at: nat, x: seq<Source>)
    ensures Collected(Fresh(at)) + x == x
  {
  }

  lemma {:induction false} GoSources(it: Iteration, before: seq<Source>, more: seq<Item>, tree: seq<Source>)
    requires it.Go? && Subsequence(Collected(it.st), before + ItemSources(it.items))
    requires Subsequence(tree, Collected(it.st) + ItemSources(more))
    ensures Subsequence(tree, before + ItemSources(it.items + more))
    ensures tree == before + ItemSources(it.items + more) <==>
            Collected(it.st) == before + ItemSources(it.items) && tree == Collected(it.st) + ItemSources(more)
  {
    hide Subsequence;
    hide Collected;
    hide ItemSources;
    var now, after := before + ItemSources(it.items), ItemSources(more);
    ItemSourcesThen(it.items, more);
    Associate(before, ItemSources(it.items), after);
    SubsequenceThen(Collected(it.st), now, after);
    SubsequenceTransitive(tree, Collected(it.st) + after, now + after);
    SubsequenceLength(Collected(it.st), now);
    SubsequenceLength(tree, Collected(it.st) + after);
  }

  lemma {:induction false} ParenParses(text: string, more: string, inner: seq<Task>, sub: Shell, env: Env)
    requires Run(text, Fresh(0), env) == Ok(inner, more, 0) && |more| < |text|
    ensures Run("(" + text, Fresh(0).(sub := sub), env) == Run(more, Fresh(0).(sub := Shell(inner)), env)
  {
    var s := "(" + text;
    assert s[0] == '(' && s[1..] == text;
    var st := Fresh(0).(sub := Shell(inner));
    assert Finish(st, env) == Done(st);
  }

  /** `(a)(b)`: the first subshell is replaced without an error, for any two lists. */
  lemma {:induction false} SecondSubshellReplaces(a: seq<Command>, b: seq<Command>, env: Env)
    requires Printable(a) && Printable(b)
    ensures Parse("(" + (PrintList(a) + (")" + ("(" + (PrintList(b) + (")" + ""))))), env) ==
            Ok([Task([], Shell(Trees(b, 0)), [], Semicolon)], "", 0)
  {
    hide Run;
    hide PrintList;
    hide Trees;
    hide PrintableCommand;
    var second := PrintList(b) + (")" + "");
    ListParses(a, ")" + ("(" + second), [], 0, env);
    ListParses(b, ")" + "", [], 0, env);
    assert [] + Trees(a, 0) == Trees(a, 0) && [] + Trees(b, 0) == Trees(b, 0);
    assert AfterEnd(")" + ("(" + second)) == "(" + second && AfterEnd(")" + "") == "";
    ParenParses(PrintList(a) + (")" + ("(" + second)), "(" + second, Trees(a, 0), NoShell, env);
    ParenParses(second, "", Trees(b, 0), Shell(Trees(a, 0)), env);
    var st, t := Fresh(0).(sub := Shell(Trees(b, 0))), Task([], Shell(Trees(b, 0)), [], Semicolon);
    SettledSettles(st, env);
    EndParses("", st, [], t, 0, env);
    assert [] + [t] == [t];
  }

  // ----- the arguments of a word -----

  /** The conversions of a word. */
  function Specs(w: string): seq<string>
    decreases |w|
  {
    if w == "" then []
    else if w[0] != '%' then Specs(w[1..])
    else if At(w[1..]) == '%' then Specs(w[2..])
    else
      var n := 1 + SpecLen(w[1..]);
      [w[..n]] + Specs(w[n..])
  }

  /** How many arguments the expansion of a word uses. */
  function Uses(w: string): nat
    decreases |w|
  {
    if w == "" then 0
    else if w[0] != '%' then Uses(w[1..])
    else if At(w[1..]) == '%' then Uses(w[2..])
    else
      var n := 1 + SpecLen(w[1..]);
      Takes(w[..n]) + Uses(w[n..])
  }

  /** The C library defines what a conversion means: it ends in a character that is neither a flag nor a second `%`. */
  predicate Defined(spec: string)
  {
    |spec| > 1 && !IsFlag(spec[|spec| - 1]) && spec[|spec| - 1] != '%'
  }

  predicate AllDefined(specs: seq<string>) { forall i :: 0 <= i < |specs| ==> Defined(specs[i]) }

  function AllStars(specs: seq<string>): nat
  {
    if specs == [] then 0 else Stars(specs[0]) + AllStars(specs[1..])
  }

  /** How many conversions are `%m`, which takes no argument. */
  function AllSilent(specs: seq<string>): nat
  {
    if specs == [] then 0
    else (if specs[0] != "" && specs[0][|specs[0]| - 1] == 'm' then 1 else 0) + AllSilent(specs[1..])
  }

  /** The text of a word depends on its own arguments and no others. */
  lemma {:induction false} ExpandIsLocal(w: string, at: nat, e1: Env, e2: Env)
    requires e1.render == e2.render && forall k: nat :: at <= k < at + Uses(w) ==> e1.args(k) == e2.args(k)
    ensures Expand(w, at, e1) == Expand(w, at, e2)
    decreases |w|
  {
    hide Takes;
    hide IsFlag;
    if w != "" {
      if w[0] != '%' {
        ExpandIsLocal(w[1..], at, e1, e2);
      } else if At(w[1..]) == '%' {
        ExpandIsLocal(w[2..], at, e1, e2);
      } else {
        var n := 1 + SpecLen(w[1..]);
        var k := Takes(w[..n]);
        assert Arguments(e1, at, k) == Arguments(e2, at, k);
        ExpandIsLocal(w[n..], at + k, e1, e2);
      }
    }
  }

  lemma {:induction false} FlagsCount(s: string)
    requires SpecLen(s) > 0 ==> s[SpecLen(s) - 1] != '%'
    ensures Conversions(s) == Conversions(s[SpecLen(s)..])
    decreases |s|
  {
    if s != "" {
      assert s[0] != '%';
      if IsFlag(s[0]) {
        var n := SpecLen(s[1..]);
        assert n > 0 ==> s[1..][n - 1] == s[n];
        FlagsCount(s[1..]);
        assert s[1..][n..] == s[n + 1..];
      }
    }
  }

  /** A defined conversion is counted once. */
  lemma {:induction false} ConversionCounts(w: string, n: nat)
    requires w != "" && w[0] == '%' && At(w[1..]) != '%' && n == 1 + SpecLen(w[1..]) && Defined(w[..n])
    ensures Conversions(w) == 1 + Conversions(w[n..])
  {
    assert w[1..][n - 2] == w[..n][n - 1];
    FlagsCount(w[1..]);
    assert w[1..][n - 1..] == w[n..];
  }

  lemma {:induction false} CountsDiffer(w: string)
    requires AllDefined(Specs(w))
    ensures Uses(w) + AllSilent(Specs(w)) == Conversions(w) + AllStars(Specs(w))
    decreases |w|
  {
    hide Conversions;
    hide Stars;
    if w == "" {
      NoConversions(w);
    } else if w[0] != '%' {
      PlainCounts(w);
      CountsDiffer(w[1..]);
    } else if At(w[1..]) == '%' {
      PlainCounts(w);
      CountsDiffer(w[2..]);
    } else {
      var n := 1 + SpecLen(w[1..]);
      var spec, rest := w[..n], Specs(w[n..]);
      assert Specs(w) == [spec] + rest && Specs(w)[0] == spec && Specs(w)[1..] == rest;
      assert AllDefined(rest) by {
        assert forall i :: 0 <= i < |rest| ==> rest[i] == Specs(w)[i + 1];
      }
      ConversionCounts(w, n);
      CountsDiffer(w[n..]);
    }
  }

  lemma NoConversions(w: string)
    requires w == ""
    ensures Conversions(w) == 0
  {
  }

  lemma PlainCounts(w: string)
    requires w != "" && (w[0] != '%' || At(w[1..]) == '%')
    ensures Conversions(w) == Conversions(w[if w[0] != '%' then 1 else 2..])
  {
  }

  /**
  For words whose conversions the C library defines: the count by which the parser advances
  the argument list is the number of arguments used if and only if there are as many `%m`
  conversions as `*` widths and precisions. With more `*` the next word starts with an
  argument that this one has used; with more `%m` an argument is passed over.
  */
  lemma {:induction false} CountIsRightIff(w: string)
    requires AllDefined(Specs(w))
    ensures Uses(w) == Conversions(w) <==> AllStars(Specs(w)) == AllSilent(Specs(w))
    ensures Uses(w) > Conversions(w) <==> AllStars(Specs(w)) > AllSilent(Specs(w))
  {
    CountsDiffer(w);
  }

  /** `%*d` uses two arguments and is counted once. */
  lemma StarIsNotCounted()
    ensures AllDefined(Specs("%*d")) && Uses("%*d") == 2 && Conversions("%*d") == 1
  {
    var w := "%*d";
    assert w[1..] == "*d" && w[1..][1..] == "d" && "d"[1..] == "" && w[3..] == "" && w[..3] == w;
    assert SpecLen(w[1..]) == 2;
    assert Specs(w) == [w] + Specs("") == [w];
    assert Stars("d") == 0 && Stars("*d") == 1 && Stars(w) == 1;
    assert Conversions("d") == 0 && Conversions("*d") == 0;
  }

  // ----- the whole -----

  /**
  For every format that parses: its words were read from pieces of it that do not overlap,
  each being that piece without its quotes; they use the arguments from the first on, each
  starting where the one before stopped; and the tree has them in the order of the text.
  */
  lemma {:induction false} WordsComeFromText(format: string, env: Env)
    ensures var r, start := Parse(format, env), Unbegun(format);
            var items := Items(format, Fresh(0), start, env);
            r.Ok? ==>
              && AllSound(items, format) && Placed(items, |format|, |r.rest|) && Chained(items, 0, r.at)
              && Subsequence(TreeSources(r.tasks), ItemSources(items))
              && (TreeSources(r.tasks) == ItemSources(items) <==> !Drops(format, Fresh(0), start, env))
  {
    hide Items;
    hide Run;
    hide Drops;
    hide AllSound;
    hide Placed;
    var start := Unbegun(format);
    TracksUnbegun(format, Fresh(0));
    ItemsSound(format, Fresh(0), start, env);
    ItemsPlaced(format, Fresh(0), start, env);
    ItemsChained(format, Fresh(0), start, env);
    ReadingOrder(format, Fresh(0), start, env);
    FreshCollected(0, ItemSources(Items(format, Fresh(0), start, env)));
  }
}

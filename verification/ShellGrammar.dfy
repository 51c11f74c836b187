/**
The grammar that a flat task list stands for, after sections 2.9.2 (Pipelines) and 2.9.3
(Lists) of the POSIX.1-2017 Shell Command Language: a script is a sequence of AND-OR lists,
an AND-OR list a sequence of pipelines joined by `&&` and `||`, a pipeline a sequence of
commands joined by `|`.
*/
module ShellGrammar {
  import opened ShellSyntax

  type Pipeline = seq<Task>
  type AndOr = seq<Pipeline>
  type Script = seq<AndOr>

  function End(p: Pipeline): Token
  {
    if p == [] then Semicolon else p[|p| - 1].token
  }

  function EndOfAndOr(a: AndOr): Token
  {
    if a == [] then Semicolon else End(a[|a| - 1])
  }

  predicate Connects(t: Token) { t == And || t == Or }
  predicate Terminates(t: Token) { t == Semicolon || t == Background }

  predicate IsPipeline(p: Pipeline)
  {
    p != [] && forall i :: 0 <= i < |p| - 1 ==> p[i].token == Pipe
  }

  predicate IsAndOr(a: AndOr)
  {
    && a != []
    && (forall i :: 0 <= i < |a| ==> IsPipeline(a[i]))
    && (forall i :: 0 <= i < |a| - 1 ==> Connects(End(a[i])))
  }

  /** Only the last AND-OR list may end in something other than `;` or `&`. */
  predicate IsScript(s: Script)
  {
    && (forall i :: 0 <= i < |s| ==> IsAndOr(s[i]))
    && (forall i :: 0 <= i < |s| - 1 ==> Terminates(EndOfAndOr(s[i])))
  }

  function Join(a: AndOr): seq<Task>
  {
    if a == [] then [] else Join(a[..|a| - 1]) + a[|a| - 1]
  }

  function Flatten(s: Script): seq<Task>
  {
    if s == [] then [] else Join(s[0]) + Flatten(s[1..])
  }

  lemma {:induction false} JoinFirst(p: Pipeline, a: AndOr)
    ensures Join([p] + a) == p + Join(a)
    decreases |a|
  {
    if a == [] {
      assert ([p] + a)[..0] == [];
    } else {
      var n := |a|;
      assert ([p] + a)[..n] == [p] + a[..n - 1] && ([p] + a)[n] == a[n - 1];
      JoinFirst(p, a[..n - 1]);
    }
  }

  /** Length of the first pipeline of a list. */
  function FirstPipeline(tasks: seq<Task>): (k: nat)
    requires tasks != []
    ensures 1 <= k <= |tasks| && IsPipeline(tasks[..k])
    ensures k < |tasks| ==> End(tasks[..k]) != Pipe
  {
    if tasks[0].token != Pipe || |tasks| == 1 then 1
    else
      var k := FirstPipeline(tasks[1..]);
      assert tasks[..k + 1] == [tasks[0]] + tasks[1..][..k];
      k + 1
  }

  lemma {:induction false} ConsAndOr(p: Pipeline, a: AndOr)
    requires IsPipeline(p) && Connects(End(p)) && IsAndOr(a)
    ensures IsAndOr([p] + a) && EndOfAndOr([p] + a) == EndOfAndOr(a)
    ensures Join([p] + a) == p + Join(a)
  {
    JoinFirst(p, a);
    assert forall i {:trigger ([p] + a)[i]} :: 0 < i < |a| + 1 ==> ([p] + a)[i] == a[i - 1];
  }

  lemma {:induction false} OnePipeline(p: Pipeline)
    requires IsPipeline(p)
    ensures IsAndOr([p]) && EndOfAndOr([p]) == End(p) && Join([p]) == p
  {
    assert [p][..0] == [] && Join([]) + p == p;
  }

  /** The first AND-OR list of a list and what follows it. */
  function FirstAndOr(tasks: seq<Task>): (r: (AndOr, seq<Task>))
    requires tasks != []
    ensures |r.1| < |tasks|
    decreases |tasks|
  {
    var k := FirstPipeline(tasks);
    var p, rest := tasks[..k], tasks[k..];
    if rest == [] || !Connects(End(p)) then ([p], rest)
    else
      var (a, rest') := FirstAndOr(rest);
      ([p] + a, rest')
  }

  lemma {:induction false} FirstAndOrIsOne(tasks: seq<Task>)
    requires tasks != []
    ensures var (a, rest) := FirstAndOr(tasks);
            IsAndOr(a) && Join(a) + rest == tasks && (rest != [] ==> Terminates(EndOfAndOr(a)))
    decreases |tasks|
  {
    hide IsAndOr;
    hide EndOfAndOr;
    hide Join;
    hide IsPipeline;
    hide End;
    var k := FirstPipeline(tasks);
    var p, rest := tasks[..k], tasks[k..];
    assert p + rest == tasks;
    if rest == [] || !Connects(End(p)) {
      OnePipeline(p);
    } else {
      FirstAndOrIsOne(rest);
      var (a, rest') := FirstAndOr(rest);
      ConsAndOr(p, a);
      Associate(p, Join(a), rest');
    }
  }

  lemma {:induction false} ConsScript(a: AndOr, s: Script)
    requires IsAndOr(a) && IsScript(s) && (s != [] ==> Terminates(EndOfAndOr(a)))
    ensures IsScript([a] + s) && Flatten([a] + s) == Join(a) + Flatten(s)
  {
    assert ([a] + s)[1..] == s;
  }

  /** The script a task list stands for: every list has one, and flattening gives the list back. */
  function Group(tasks: seq<Task>): (s: Script)
    ensures IsScript(s) && Flatten(s) == tasks
    ensures tasks == [] <==> s == []
    decreases |tasks|
  {
    if tasks == [] then []
    else
      FirstAndOrIsOne(tasks);
      var (a, rest) := FirstAndOr(tasks);
      var s := Group(rest);
      ConsScript(a, s);
      [a] + s
  }
}

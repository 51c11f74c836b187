/**
What the format of a word expands to: its literal text and the renderings of its conversions,
in order, each conversion with the arguments that come after those of the ones before.
*/
module ShellExpansion {
  import opened ShellSyntax
  import opened CStrings
  import opened Decimal
  import opened ShellParser
  import opened ShellPrinter
  import opened ShellSources

  /** A piece of a format: text to be kept, or a conversion. */
  datatype Part = Verbatim(text: string) | Conversion(flags: string, letter: char)

  /** Flags, width, precision and length. */
  predicate FlagChar(c: char) { c in "-+ #'I0123456789.*hlLqjzt" }

  /** A conversion has a letter that is none of these and no `%`. */
  predicate GoodPart(p: Part)
  {
    p.Conversion? ==>
      (forall i :: 0 <= i < |p.flags| ==> FlagChar(p.flags[i])) && !FlagChar(p.letter) && p.letter != '%'
  }

  predicate GoodParts(ps: seq<Part>) { forall i :: 0 <= i < |ps| ==> GoodPart(ps[i]) }

  /** Each `%` of the text is written twice. */
  function SpellPart(p: Part): string
  {
    match p case Verbatim(text) => Escape(text) case Conversion(flags, letter) => "%" + flags + [letter]
  }

  function SpellParts(ps: seq<Part>): string
  {
    if ps == [] then "" else SpellPart(ps[0]) + SpellParts(ps[1..])
  }

  /** The arguments of a conversion: one for each `*`, and one for itself unless it is `%m`. */
  ghost function Wants(p: Part): nat
  {
    match p
    case Verbatim(_) => 0
    case Conversion(flags, letter) => multiset(flags)['*'] + if letter == 'm' then 0 else 1
  }

  ghost function Rendered(ps: seq<Part>, at: nat, env: Env): string
  {
    if ps == [] then ""
    else
      (match ps[0]
       case Verbatim(text) => text
       case Conversion(_, _) => env.render(SpellPart(ps[0]), Arguments(env, at, Wants(ps[0])))) +
      Rendered(ps[1..], at + Wants(ps[0]), env)
  }

  // ----- one part -----

  lemma {:induction false} VerbatimExpands(text: string, tail: string, at: nat, env: Env)
    ensures Expand(Escape(text) + tail, at, env) == text + Expand(tail, at, env)
    decreases |text|
  {
    hide Expand;
    if text == "" {
      assert Escape(text) + tail == tail && text + Expand(tail, at, env) == Expand(tail, at, env);
    } else {
      var more := Escape(text[1..]) + tail;
      VerbatimExpands(text[1..], tail, at, env);
      EscapeFirst(text);
      assert [text[0]][1..] == "" && Escape("") == "";
      assert [text[0]] + (text[1..] + Expand(tail, at, env)) == text + Expand(tail, at, env);
      if text[0] == '%' {
        assert Escape(text) + tail == "%%" + more;
        ExpandPercent(more, at, env);
      } else {
        assert Escape(text) + tail == [text[0]] + more;
        ExpandOther(text[0], more, at, env);
      }
    }
  }

  lemma FlagChars(c: char)
    ensures (IsFlag(c) <==> FlagChar(c)) && FlagChar('*') && !FlagChar('%')
  {
    assert "0123456789" == ['0', '1', '2', '3', '4', '5', '6', '7', '8', '9'];
    assert IsDigit(c) <==> c in "0123456789";
    assert "-+ #'I0123456789.*hlLqjzt" == "-+ #'I" + "0123456789" + ".*hlLqjzt";
    assert "-+ #'I.*hlLqjzt" == "-+ #'I" + ".*hlLqjzt";
    assert '*' in ".*hlLqjzt" && '%' !in "-+ #'I" && '%' !in "0123456789" && '%' !in ".*hlLqjzt";
  }

  lemma {:induction false} SpecLenIs(flags: string, letter: char, tail: string)
    requires (forall i :: 0 <= i < |flags| ==> IsFlag(flags[i])) && !IsFlag(letter)
    ensures SpecLen(flags + [letter] + tail) == |flags| + 1
    decreases |flags|
  {
    hide IsFlag;
    var s := flags + [letter] + tail;
    if flags != "" {
      assert s[1..] == flags[1..] + [letter] + tail && s[0] == flags[0];
      SpecLenIs(flags[1..], letter, tail);
    } else {
      assert s[0] == letter;
    }
  }

  lemma {:induction false} StarsAre(s: string)
    ensures Stars(s) == multiset(s)['*']
    decreases |s|
  {
    if s != "" {
      StarsAre(s[1..]);
      assert s == [s[0]] + s[1..];
      assert multiset(s) == multiset{s[0]} + multiset(s[1..]);
    }
  }

  lemma {:induction false} TakesIs(flags: string, letter: char)
    requires letter != '%' && letter != '*'
    ensures Takes("%" + flags + [letter]) == Wants(Conversion(flags, letter))
  {
    hide Stars;
    var spec := "%" + flags + [letter];
    StarsAre(spec);
    assert multiset(spec) == multiset{'%'} + multiset(flags) + multiset{letter};
    assert spec[|spec| - 1] == letter;
  }

  lemma {:induction false} SpecExpands(w: string, n: nat, at: nat, env: Env)
    requires w != "" && w[0] == '%' && At(w[1..]) != '%' && n == 1 + SpecLen(w[1..])
    ensures Expand(w, at, env) ==
            env.render(w[..n], Arguments(env, at, Takes(w[..n]))) + Expand(w[n..], at + Takes(w[..n]), env)
  {
    hide Takes;
    hide Arguments;
    hide SpecLen;
    hide IsFlag;
  }

  lemma {:induction false} GoodFlags(p: Part)
    requires p.Conversion? && GoodPart(p)
    ensures (forall i :: 0 <= i < |p.flags| ==> IsFlag(p.flags[i]) && p.flags[i] != '%')
    ensures !IsFlag(p.letter) && p.letter != '*' && p.letter != '%'
  {
    hide IsFlag;
    hide FlagChar;
    FlagChars(p.letter);
    forall i | 0 <= i < |p.flags|
      ensures IsFlag(p.flags[i]) && p.flags[i] != '%'
    {
      FlagChars(p.flags[i]);
    }
  }

  lemma {:induction false} SpecText(flags: string, letter: char, tail: string)
    ensures var spec := "%" + flags + [letter];
            var w := spec + tail;
            && w[0] == '%' && w[1..] == flags + [letter] + tail && w[..|spec|] == spec && w[|spec|..] == tail
            && w[1..][0] == if flags == "" then letter else flags[0]
  {
  }

  lemma {:induction false} PartIsSpec(p: Part, tail: string)
    requires p.Conversion? && GoodPart(p)
    ensures p.letter != '*' && p.letter != '%' && SpellPart(p) != ""
    ensures var w, n := SpellPart(p) + tail, |SpellPart(p)|;
            && w[0] == '%' && At(w[1..]) != '%' && n == 1 + SpecLen(w[1..]) && w[..n] == SpellPart(p) && w[n..] == tail
  {
    hide IsFlag;
    GoodFlags(p);
    SpecLenIs(p.flags, p.letter, tail);
    hide SpecLen;
    hide GoodPart;
    SpecText(p.flags, p.letter, tail);
  }

  lemma {:induction false} ConversionExpands(p: Part, tail: string, at: nat, env: Env)
    requires p.Conversion? && GoodPart(p)
    ensures Expand(SpellPart(p) + tail, at, env) ==
            env.render(SpellPart(p), Arguments(env, at, Wants(p))) + Expand(tail, at + Wants(p), env)
  {
    hide Expand;
    hide Takes;
    hide Arguments;
    hide Wants;
    hide GoodPart;
    hide SpecLen;
    PartIsSpec(p, tail);
    TakesIs(p.flags, p.letter);
    assert Conversion(p.flags, p.letter) == p;
    SpecExpands(SpellPart(p) + tail, |SpellPart(p)|, at, env);
  }

  /** For every format made of parts: the expansion is their renderings, one after another. */
  lemma {:induction false} ExpandParts(ps: seq<Part>, at: nat, env: Env)
    requires GoodParts(ps)
    ensures Expand(SpellParts(ps), at, env) == Rendered(ps, at, env)
    decreases |ps|
  {
    hide Expand;
    hide SpellPart;
    hide GoodPart;
    hide Escape;
    if ps == [] {
      ExpandEmpty(at, env);
    } else {
      var p, tail := ps[0], SpellParts(ps[1..]);
      assert GoodParts(ps[1..]);
      match p
      case Verbatim(text) =>
        VerbatimPart(text);
        VerbatimExpands(text, tail, at, env);
        ExpandParts(ps[1..], at, env);
      case Conversion(_, _) =>
        ConversionExpands(p, tail, at, env);
        ExpandParts(ps[1..], at + Wants(p), env);
    }
  }

  lemma VerbatimPart(text: string)
    ensures SpellPart(Verbatim(text)) == Escape(text)
  {
  }

  /** In particular a conversion between two texts. */
  lemma {:induction false} ExpandBetween(a: string, p: Part, b: string, at: nat, env: Env)
    requires p.Conversion? && GoodPart(p)
    ensures Expand(Escape(a) + SpellPart(p) + Escape(b), at, env) ==
            a + env.render(SpellPart(p), Arguments(env, at, Wants(p))) + b
  {
    hide Expand;
    hide SpellPart;
    hide GoodPart;
    hide Escape;
    var tail := SpellPart(p) + Escape(b);
    assert Escape(a) + SpellPart(p) + Escape(b) == Escape(a) + tail;
    VerbatimExpands(a, tail, at, env);
    ConversionExpands(p, Escape(b), at, env);
    ExpandEscape(b, at + Wants(p), env);
  }

  // ----- every defined format is made of parts -----

  /** The parts of a format, character by character outside conversions. */
  function PartsOf(w: string): seq<Part>
    decreases |w|
  {
    if w == "" then []
    else if w[0] != '%' then [Verbatim([w[0]])] + PartsOf(w[1..])
    else if At(w[1..]) == '%' then [Verbatim("%")] + PartsOf(w[2..])
    else
      var n := 1 + SpecLen(w[1..]);
      [Conversion(w[1..if n > 1 then n - 1 else 1], w[n - 1])] + PartsOf(w[n..])
  }

  /** All but the last character of a conversion are flags. */
  lemma {:induction false} SpecFlags(s: string)
    ensures forall i :: 0 <= i < SpecLen(s) - 1 ==> IsFlag(s[i])
    decreases |s|
  {
    hide IsFlag;
    if s != "" && IsFlag(s[0]) {
      SpecFlags(s[1..]);
      forall i | 0 <= i < SpecLen(s) - 1
        ensures IsFlag(s[i])
      {
        if i > 0 {
          assert s[i] == s[1..][i - 1];
        }
      }
    }
  }

  lemma {:induction false} SpecPart(w: string, n: nat)
    requires w != "" && w[0] == '%' && At(w[1..]) != '%' && n == 1 + SpecLen(w[1..]) && Defined(w[..n])
    ensures var p := Conversion(w[1..n - 1], w[n - 1]);
            GoodPart(p) && SpellPart(p) + w[n..] == w
  {
    hide IsFlag;
    hide FlagChar;
    forall c
      ensures (IsFlag(c) <==> FlagChar(c)) && FlagChar('*') && !FlagChar('%')
    {
      FlagChars(c);
    }
    SpecFlags(w[1..]);
    var flags := w[1..n - 1];
    assert forall i :: 0 <= i < |flags| ==> flags[i] == w[1..][i];
    assert w[..n][n - 1] == w[n - 1];
    assert "%" + flags + [w[n - 1]] + w[n..] == w;
  }

  lemma {:induction false} PartsFirst(p: Part, ps: seq<Part>)
    requires GoodPart(p) && GoodParts(ps)
    ensures GoodParts([p] + ps) && SpellParts([p] + ps) == SpellPart(p) + SpellParts(ps)
  {
    assert ([p] + ps)[1..] == ps;
  }

  /** So the above covers every format whose conversions the C library defines. */
  lemma {:induction false} PartsOfDefined(w: string)
    requires AllDefined(Specs(w))
    ensures GoodParts(PartsOf(w)) && SpellParts(PartsOf(w)) == w
    decreases |w|
  {
    hide GoodPart;
    hide SpellParts;
    hide GoodParts;
    hide Defined;
    if w == "" {
      NoParts();
    } else if w[0] != '%' {
      PartsOfDefined(w[1..]);
      LiteralPart(w[0]);
      PartsFirst(Verbatim([w[0]]), PartsOf(w[1..]));
      assert [w[0]] + w[1..] == w;
    } else if At(w[1..]) == '%' {
      PartsOfDefined(w[2..]);
      LiteralPart('%');
      PartsFirst(Verbatim("%"), PartsOf(w[2..]));
      assert "%%" + w[2..] == w;
    } else {
      var n := 1 + SpecLen(w[1..]);
      var rest := Specs(w[n..]);
      assert Specs(w) == [w[..n]] + rest && Specs(w)[0] == w[..n];
      assert AllDefined(rest) by {
        assert forall i :: 0 <= i < |rest| ==> rest[i] == Specs(w)[i + 1];
      }
      PartsOfDefined(w[n..]);
      DefinedLength(w[..n]);
      SpecPart(w, n);
      PartsFirst(Conversion(w[1..n - 1], w[n - 1]), PartsOf(w[n..]));
    }
  }

  lemma DefinedLength(spec: string)
    requires Defined(spec)
    ensures |spec| > 1
  {
  }

  lemma NoParts()
    ensures GoodParts([]) && SpellParts([]) == ""
  {
  }

  lemma LiteralPart(c: char)
    ensures GoodPart(Verbatim([c])) && SpellPart(Verbatim([c])) == if c == '%' then "%%" else [c]
  {
    assert [c][1..] == "" && Escape("") == "";
  }

  /** For every format that the C library defines, its parts give its expansion and take its arguments. */
  lemma {:induction false} ExpansionIsParts(w: string, at: nat, env: Env)
    requires AllDefined(Specs(w))
    ensures SpellParts(PartsOf(w)) == w && Expand(w, at, env) == Rendered(PartsOf(w), at, env)
  {
    PartsOfDefined(w);
    ExpandParts(PartsOf(w), at, env);
  }
}

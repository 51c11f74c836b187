/**
Where words come from. Alongside the loop runs a ghost reading of the same text: the words
taken, each with the place and the plain and quoted pieces it was read from. Every word is
such a piece without its quotes, pieces do not overlap, and each word starts with the
argument after the last one used.
*/
module ShellReading {
  import opened ShellSyntax
  import opened CStrings
  import Decimal
  import opened ShellParser
  import opened ShellParserProps
  import opened ShellParserLoop
  import opened ShellPrinter
  import opened ShellTargets

  /** A word taken: the text from its first character on, its pieces, and what the parser made of it. */
  datatype Item = Item(tail: string, pieces: seq<Piece>, format: string, at: nat, target: bool)

  /** The word being collected: the text from its first character on, and its pieces so far. */
  datatype Mark = Mark(tail: string, pieces: seq<Piece>)

  /** One iteration of the loop: it fails, ends the list, or goes on. */
  datatype Iteration =
    | Crash
    | End(items: seq<Item>, rest: string, st: St)
    | Go(items: seq<Item>, rest: string, st: St, mark: Mark)

  function Unbegun(s: string): Mark { Mark(s, []) }

  function NextPiece(s: string): Piece
    requires s != "" && s[0] != '\0'
  {
    if s[0] == '\'' || s[0] == '"' then Quotation(s[0], s[1..][..Quoted(s[1..], s[0])]) else Plain([s[0]])
  }

  /** After a character that goes on with the word, or the `&` of `&>`, which is not part of it. */
  function Extend(m: Mark, s: string): Mark
    requires s != "" && s[0] != '\0'
  {
    if s[0] == '&' then m
    else if m.pieces == [] then Mark(s, [NextPiece(s)])
    else Mark(m.tail, m.pieces + [NextPiece(s)])
  }

  function Taken(st: St, m: Mark): seq<Item>
  {
    if st.temp == "" && st.mode != NewArg then []
    else [Item(m.tail, m.pieces, st.temp, st.at, st.mode == Redir)]
  }

  /** Digits before an operator are its descriptor and not a word. */
  function AfterOperator(m: Mark, s: string, st: St): Mark
  {
    if (At(s) == '<' || At(s) == '>') && st.temp == "" then Unbegun(s) else m
  }

  ghost function Iterate(s: string, st: St, m: Mark, env: Env): (r: Iteration)
    ensures r.Go? ==> |r.rest| < |s| || (r.rest == s && |r.st.temp| < |st.temp|)
    decreases |s|, |st.temp|, 0
  {
    if Limit(st).Failed? then Crash
    else if At(s) == '(' then
      if st.argv != [] then Crash
      else
        var inner := Run(s[1..], Fresh(st.at), env);
        if inner.Fail? || |inner.rest| == |s| - 1 then Crash
        else
          var st1 := st.(sub := Shell(inner.tasks), at := inner.at);
          var f := Finish(st1, env);
          if f.Failed? then Crash
          else
            var nested := Items(s[1..], Fresh(st.at), Unbegun(s[1..]), env);
            Go(nested + Taken(st1, m), inner.rest, f.st, Unbegun(inner.rest))
    else
      match Switch(s, st)
      case Err(_) => Crash
      case Again(st', rest) => Go([], rest, st', Extend(m, s))
      case Next(st', rest) =>
        var f := Finish(st', env);
        if f.Failed? then Crash else Go(Taken(st', AfterOperator(m, s, st')), rest, f.st, Unbegun(rest))
      case Stop(st', rest) =>
        var f := Finish(st', env);
        if f.Failed? then Crash else End(Taken(st', m), rest, f.st)
  }

  /** The words taken, in the order in which they are. */
  ghost function Items(s: string, st: St, m: Mark, env: Env): seq<Item>
    decreases |s|, |st.temp|, 1
  {
    match Iterate(s, st, m, env)
    case Crash => []
    case End(items, _, _) => items
    case Go(items, rest, st', m') => items + Items(rest, st', m', env)
  }

  /** The reading follows the parser. */
  lemma {:induction false} IterateIsRun(s: string, st: St, m: Mark, env: Env)
    ensures match Iterate(s, st, m, env)
            case Crash => Run(s, st, env).Fail?
            case End(_, rest, st') => Run(s, st, env) == Ok(st'.tasks, rest, st'.at)
            case Go(_, rest, st', _) => Run(s, st, env) == Run(rest, st', env)
  {
    hide Switch;
    hide Finish;
    hide Items;
  }

  // ----- arguments are used one after another -----

  /** Each word starts with the argument after those of the word before. */
  ghost predicate Chained(items: seq<Item>, from: nat, to: nat)
  {
    if items == [] then from == to
    else items[0].at == from && Chained(items[1..], from + Conversions(items[0].format), to)
  }

  lemma {:induction false} ChainedThen(a: seq<Item>, b: seq<Item>, from: nat, mid: nat, to: nat)
    requires Chained(a, from, mid) && Chained(b, mid, to)
    ensures Chained(a + b, from, to)
    decreases |a|
  {
    if a == [] {
      assert a + b == b;
    } else {
      assert (a + b)[0] == a[0] && (a + b)[1..] == a[1..] + b;
      ChainedThen(a[1..], b, from + Conversions(a[0].format), mid, to);
    }
  }

  lemma {:induction false} TakenChained(st: St, m: Mark, env: Env)
    requires Finish(st, env).Done?
    ensures Chained(Taken(st, m), st.at, Finish(st, env).st.at)
  {
    hide Expand;
    hide Conversions;
    var items := Taken(st, m);
    assert items != [] ==> items[1..] == [];
  }

  lemma {:induction false} StepChained(s: string, st: St, m: Mark, env: Env)
    requires At(s) != '('
    ensures var it := Iterate(s, st, m, env);
            !it.Crash? ==> Chained(it.items, st.at, it.st.at)
  {
    hide Switch;
    hide Finish;
    hide Taken;
    SwitchSafe(s, st);
    if Limit(st).Done? {
      match Switch(s, st)
      case Err(_) =>
      case Again(_, _) =>
      case Next(st', _) =>
        if Finish(st', env).Done? {
          TakenChained(st', AfterOperator(m, s, st'), env);
        }
      case Stop(st', _) =>
        if Finish(st', env).Done? {
          TakenChained(st', m, env);
        }
    }
  }

  /**
  Over words, redirect targets and subshells, the argument list is used from start to end of a parse
  without gap or overlap.
  */
  lemma {:induction false} ItemsChained(s: string, st: St, m: Mark, env: Env)
    ensures var r := Run(s, st, env);
            r.Ok? ==> Chained(Items(s, st, m, env), st.at, r.at)
    decreases |s|, |st.temp|
  {
    hide Finish;
    hide Taken;
    IterateIsRun(s, st, m, env);
    var it := Iterate(s, st, m, env);
    if it.Crash? {
    } else if At(s) == '(' {
      NestedChained(s, st, m, env);
      ItemsChained(it.rest, it.st, it.mark, env);
      if Run(s, st, env).Ok? {
        ChainedThen(it.items, Items(it.rest, it.st, it.mark, env), st.at, it.st.at, Run(s, st, env).at);
      }
    } else {
      StepChained(s, st, m, env);
      if it.Go? {
        ItemsChained(it.rest, it.st, it.mark, env);
        if Run(s, st, env).Ok? {
          ChainedThen(it.items, Items(it.rest, it.st, it.mark, env), st.at, it.st.at, Run(s, st, env).at);
        }
      }
    }
  }

  lemma {:induction false} NestedChained(s: string, st: St, m: Mark, env: Env)
    requires At(s) == '('
    ensures var it := Iterate(s, st, m, env);
            !it.Crash? ==> Chained(it.items, st.at, it.st.at)
    decreases |s|, |st.temp|, 0
  {
    hide Finish;
    hide Taken;
    var it := Iterate(s, st, m, env);
    if !it.Crash? {
      var inner := Run(s[1..], Fresh(st.at), env);
      var st1 := st.(sub := Shell(inner.tasks), at := inner.at);
      ItemsChained(s[1..], Fresh(st.at), Unbegun(s[1..]), env);
      TakenChained(st1, m, env);
      ChainedThen(Items(s[1..], Fresh(st.at), Unbegun(s[1..]), env), Taken(st1, m), st.at, inner.at, it.st.at);
    }
  }

  // ----- words are pieces of the text -----

  /** The pieces are those of the pending word and stand where it began, just before the unread text. */
  ghost predicate Tracks(m: Mark, s: string, st: St)
  {
    && GoodPieces(m.pieces) && Value(m.pieces) == st.temp && (st.mode == Redir ==> !HasQuote(m.pieces))
    && (m.tail == Spell(m.pieces) + s || (At(s) == '>' && m.tail == Spell(m.pieces) + ("&" + s)))
  }

  /** A piece of the text, its format that piece without its quotes; quotes make it no target. */
  ghost predicate Sound(x: Item, text: string)
  {
    && Suffix(x.tail, text) && Spell(x.pieces) <= x.tail && GoodPieces(x.pieces)
    && Value(x.pieces) == x.format && (x.target ==> !HasQuote(x.pieces))
  }

  ghost predicate AllSound(items: seq<Item>, text: string)
  {
    forall i :: 0 <= i < |items| ==> Sound(items[i], text)
  }

  lemma {:induction false} SoundIn(items: seq<Item>, text: string, larger: string)
    requires AllSound(items, text) && Suffix(text, larger)
    ensures AllSound(items, larger)
  {
    hide Suffix;
    forall i | 0 <= i < |items|
      ensures Sound(items[i], larger)
    {
      SuffixTransitive(items[i].tail, text, larger);
    }
  }

  lemma {:induction false} AllSoundThen(a: seq<Item>, b: seq<Item>, text: string)
    requires AllSound(a, text) && AllSound(b, text)
    ensures AllSound(a + b, text)
  {
    hide Sound;
  }

  lemma {:induction false} TracksTail(m: Mark, s: string, st: St)
    requires Tracks(m, s, st)
    ensures Suffix(s, m.tail) && Suffix(m.tail, m.tail)
    ensures |Spell(m.pieces)| + |s| <= |m.tail|
  {
    var n := |m.tail| - |s|;
    assert m.tail[n..] == s;
    assert m.tail[0..] == m.tail;
  }

  lemma {:induction false} TracksUnbegun(s: string, st: St)
    requires st.temp == ""
    ensures Tracks(Unbegun(s), s, st)
  {
    assert Spell([]) + s == s;
  }

  lemma {:induction false} TakenSound(m: Mark, s: string, st: St, st': St)
    requires Tracks(m, s, st) && st'.temp == st.temp && (st'.mode == Redir ==> st.mode == Redir)
    ensures AllSound(Taken(st', m), m.tail)
  {
    TracksTail(m, s, st);
  }

  lemma {:induction false} QuotedBody(s: string, q: char)
    requires q != '\0'
    ensures var n := Quoted(s, q); q !in s[..n] && '\0' !in s[..n]
    decreases |s|
  {
    if At(s) != '\0' && s[0] != q {
      QuotedBody(s[1..], q);
      var n := Quoted(s[1..], q);
      assert s[..n + 1] == [s[0]] + s[1..][..n];
    }
  }

  /** The characters consumed spell the piece, and its text is what is added to the word. */
  lemma {:induction false} PieceRead(s: string, st: St)
    requires Switch(s, st).Again? && At(s) != '&' && At(s) != '('
    ensures s != "" && s[0] != '\0'
    ensures var m, p := Switch(s, st), NextPiece(s);
            && GoodPiece(p) && SpellPiece(p) + m.rest == s && m.st.temp == st.temp + p.text
            && m.st.mode == (if p.Quotation? then NewArg else st.mode)
  {
    hide QuoteCase;
    hide RedirectCase;
    if s[0] == '\'' || s[0] == '"' {
      QuoteRead(s, st);
    } else {
      assert [s[0]] + s[1..] == s;
      assert Ordinary(s[0]);
    }
  }

  lemma {:induction false} QuoteRead(s: string, st: St)
    requires s != "" && (s[0] == '\'' || s[0] == '"') && QuoteCase(s, st).Again?
    ensures var m, p := QuoteCase(s, st), NextPiece(s);
            && GoodPiece(p) && SpellPiece(p) + m.rest == s && m.st.temp == st.temp + p.text && m.st.mode == NewArg
  {
    var n := Quoted(s[1..], s[0]);
    QuotedBody(s[1..], s[0]);
    assert s[1..][n..] == s[n + 1..];
    assert At(s[n + 1..]) == s[0];
    assert s == [s[0]] + s[1..][..n] + [s[0]] + s[n + 2..];
  }

  lemma {:induction false} PiecesAppend(ps: seq<Piece>, p: Piece)
    ensures Spell(ps + [p]) == Spell(ps) + SpellPiece(p) && Value(ps + [p]) == Value(ps) + p.text
    ensures HasQuote(ps + [p]) <==> HasQuote(ps) || p.Quotation?
    decreases |ps|
  {
    hide SpellPiece;
    if ps == [] {
      assert ps + [p] == [p] && [p][1..] == [];
      assert Spell([p]) == SpellPiece(p) + Spell([]) && Value([p]) == p.text + Value([]);
      assert SpellPiece(p) + "" == SpellPiece(p) == "" + SpellPiece(p);
      assert p.text + "" == p.text == "" + p.text;
    } else {
      assert (ps + [p])[0] == ps[0] && (ps + [p])[1..] == ps[1..] + [p];
      PiecesAppend(ps[1..], p);
      Associate(SpellPiece(ps[0]), Spell(ps[1..]), SpellPiece(p));
      Associate(ps[0].text, Value(ps[1..]), p.text);
    }
    assert p.Quotation? ==> (ps + [p])[|ps|].Quotation?;
    assert HasQuote(ps) ==> HasQuote(ps + [p]) by {
      if HasQuote(ps) {
        var i :| 0 <= i < |ps| && ps[i].Quotation?;
        assert (ps + [p])[i].Quotation?;
      }
    }
  }

  lemma {:induction false} AgainTracks(m: Mark, s: string, st: St)
    requires Tracks(m, s, st) && Switch(s, st).Again? && At(s) != '('
    ensures Tracks(Extend(m, s), Switch(s, st).rest, Switch(s, st).st)
    ensures Suffix(Extend(m, s).tail, m.tail)
  {
    hide Suffix;
    hide NextPiece;
    TracksTail(m, s, st);
    if At(s) == '&' {
      AmpTracks(m, s, st);
    } else {
      PieceRead(s, st);
      hide Switch;
      PieceTracks(m, s, st, NextPiece(s), Switch(s, st).rest, Switch(s, st).st);
    }
    hide Tracks;
  }

  /** The mark after one more piece. */
  lemma {:induction false} PieceTracks(m: Mark, s: string, st: St, p: Piece, rest: string, st': St)
    requires Tracks(m, s, st) && At(s) != '>' && GoodPiece(p) && SpellPiece(p) + rest == s
    requires st'.temp == st.temp + p.text && st'.mode == (if p.Quotation? then NewArg else st.mode)
    ensures Tracks(if m.pieces == [] then Mark(s, [p]) else Mark(m.tail, m.pieces + [p]), rest, st')
  {
    hide GoodPiece;
    hide SpellPiece;
    PiecesAppend(m.pieces, p);
    if m.pieces == [] {
      assert [] + [p] == [p];
      assert Spell([]) == "" && Value([]) == "" && "" + SpellPiece(p) == SpellPiece(p);
    } else {
      Associate(Spell(m.pieces), SpellPiece(p), rest);
    }
  }

  lemma {:induction false} AmpTracks(m: Mark, s: string, st: St)
    requires Tracks(m, s, st) && Switch(s, st).Again? && At(s) == '&'
    ensures Tracks(m, Switch(s, st).rest, Switch(s, st).st)
  {
    hide QuoteCase;
    hide RedirectCase;
    assert "&" + s[1..] == s;
  }

  /** What is taken after a case of the switch that ends a word. */
  lemma {:induction false} NextSound(m: Mark, s: string, st: St)
    requires Tracks(m, s, st) && (Switch(s, st).Next? || Switch(s, st).Stop?)
    ensures var n := Switch(s, st); AllSound(Taken(n.st, AfterOperator(m, s, n.st)), m.tail)
  {
    hide Suffix;
    var n := Switch(s, st);
    TracksTail(m, s, st);
    if (At(s) == '<' || At(s) == '>') && n.st.temp == "" {
      TracksUnbegun(s, n.st);
      TakenSound(Unbegun(s), s, n.st, n.st);
      SoundIn(Taken(n.st, Unbegun(s)), s, m.tail);
    } else {
      WordKept(s, st);
      TakenSound(m, s, st, n.st);
    }
  }

  lemma {:induction false} WordKept(s: string, st: St)
    requires var n := Switch(s, st);
             (n.Next? || n.Stop?) && !((At(s) == '<' || At(s) == '>') && n.st.temp == "")
    ensures Switch(s, st).st.temp == st.temp && Switch(s, st).st.mode == st.mode
  {
    hide QuoteCase;
    hide RedirectCase;
    if At(s) == '<' || At(s) == '>' {
      OperatorKeeps(s, st);
    }
  }

  lemma {:induction false} OperatorKeeps(s: string, st: St)
    requires s != "" && s[0] != '\0' && RedirectCase(s, st).Next? && RedirectCase(s, st).st.temp != ""
    ensures RedirectCase(s, st).st.temp == st.temp && RedirectCase(s, st).st.mode == st.mode
  {
    hide Decimal.Strtol;
    hide Decimal.Int32;
  }

  lemma {:induction false} ItemsSound(s: string, st: St, m: Mark, env: Env)
    requires Tracks(m, s, st)
    ensures AllSound(Items(s, st, m, env), m.tail)
    decreases |s|, |st.temp|
  {
    hide Switch;
    hide Finish;
    hide Taken;
    hide Extend;
    hide Tracks;
    hide AllSound;
    hide Suffix;
    var it := Iterate(s, st, m, env);
    NothingSound(m.tail);
    if it.Crash? {
    } else if At(s) == '(' {
      NestedSound(s, st, m, env);
      FinishEmpties(s, st, m, env);
      ItemsSound(it.rest, it.st, it.mark, env);
      ItemsMore(it, s, st, m, env);
    } else if Switch(s, st).Again? {
      AgainTracks(m, s, st);
      ItemsSound(it.rest, it.st, it.mark, env);
      ItemsMore(it, s, st, m, env);
    } else {
      NextSound(m, s, st);
      hide AfterOperator;
      if it.Go? {
        FinishEmpties(s, st, m, env);
        ItemsSound(it.rest, it.st, it.mark, env);
        ItemsMore(it, s, st, m, env);
      } else {
        StopMark(s, st, m);
      }
    }
  }

  lemma NothingSound(text: string)
    ensures AllSound([], text)
  {
  }

  lemma {:induction false} StopMark(s: string, st: St, m: Mark)
    requires Switch(s, st).Stop?
    ensures AfterOperator(m, s, Switch(s, st).st) == m
  {
    hide QuoteCase;
    hide SeparatorCase;
  }

  lemma {:induction false} FinishEmpties(s: string, st: St, m: Mark, env: Env)
    requires Iterate(s, st, m, env).Go? && (At(s) == '(' || !Switch(s, st).Again?)
    ensures var it := Iterate(s, st, m, env);
            it.st.temp == "" && it.mark == Unbegun(it.rest) && Tracks(it.mark, it.rest, it.st) && Suffix(it.rest, s)
  {
    hide Items;
    hide Switch;
    hide Finish;
    hide Suffix;
    hide Tracks;
    var it := Iterate(s, st, m, env);
    TracksUnbegun(it.rest, it.st);
    if At(s) == '(' {
      RestIsSuffix(s[1..], Fresh(st.at), env);
      Drop(s, 1);
      SuffixTransitive(it.rest, s[1..], s);
    } else {
      SwitchSuffix(s, st);
    }
  }

  lemma {:induction false} ItemsMore(it: Iteration, s: string, st: St, m: Mark, env: Env)
    requires it == Iterate(s, st, m, env) && it.Go? && Tracks(m, s, st)
    requires AllSound(it.items, m.tail) && AllSound(Items(it.rest, it.st, it.mark, env), it.mark.tail)
    requires Suffix(it.mark.tail, s) || Suffix(it.mark.tail, m.tail)
    ensures AllSound(Items(s, st, m, env), m.tail)
  {
    hide Iterate;
    hide AllSound;
    hide Suffix;
    TracksTail(m, s, st);
    hide Tracks;
    if Suffix(it.mark.tail, s) {
      SuffixTransitive(it.mark.tail, s, m.tail);
    }
    SoundIn(Items(it.rest, it.st, it.mark, env), it.mark.tail, m.tail);
    AllSoundThen(it.items, Items(it.rest, it.st, it.mark, env), m.tail);
  }

  lemma {:induction false} NestedSound(s: string, st: St, m: Mark, env: Env)
    requires Tracks(m, s, st) && At(s) == '(' && Iterate(s, st, m, env).Go?
    ensures AllSound(Iterate(s, st, m, env).items, m.tail)
    decreases |s|, |st.temp|, 0
  {
    hide Finish;
    hide Taken;
    hide AllSound;
    hide Suffix;
    var inner := Run(s[1..], Fresh(st.at), env);
    var st1 := st.(sub := Shell(inner.tasks), at := inner.at);
    TracksTail(m, s, st);
    TracksUnbegun(s[1..], Fresh(st.at));
    TakenSound(m, s, st, st1);
    hide Tracks;
    ItemsSound(s[1..], Fresh(st.at), Unbegun(s[1..]), env);
    Drop(s, 1);
    SuffixTransitive(s[1..], s, m.tail);
    var nested := Items(s[1..], Fresh(st.at), Unbegun(s[1..]), env);
    SoundIn(nested, s[1..], m.tail);
    AllSoundThen(nested, Taken(st1, m), m.tail);
  }

  // ----- pieces do not overlap -----

  /** Unread characters where a word begins and where it ends. */
  function From(x: Item): nat { |x.tail| }
  function To(x: Item): int { |x.tail| - |Spell(x.pieces)| }

  /** One word ends before the other begins, and of two that are not targets the first taken comes first. */
  ghost predicate InOrder(x: Item, y: Item)
  {
    From(y) <= To(x) || (From(x) <= To(y) && (x.target || y.target))
  }

  ghost predicate Placed(items: seq<Item>, from: int, to: int)
  {
    && (forall i :: 0 <= i < |items| ==> From(items[i]) <= from && to <= To(items[i]))
    && (forall i, j :: 0 <= i < j < |items| ==> InOrder(items[i], items[j]))
  }

  lemma {:induction false} PlacedThen(a: seq<Item>, b: seq<Item>, from: int, mid: int, to: int)
    requires Placed(a, from, mid) && Placed(b, mid, to) && to <= mid <= from
    ensures Placed(a + b, from, to)
  {
    hide To;
  }

  /** A target taken after words that come later in the text. */
  lemma {:induction false} PlacedTarget(a: seq<Item>, x: Item, from: int, mid: int, to: int)
    requires Placed(a, mid, to) && x.target && From(x) <= from && mid <= To(x) && to <= mid <= from
    ensures Placed(a + [x], from, to)
  {
    hide To;
  }

  /** Where the pending word begins, or the unread text if there is none. */
  function Begins(m: Mark, s: string): nat { if m.pieces == [] then |s| else |m.tail| }

  lemma {:induction false} TakenPlaced(m: Mark, s: string, st: St, st': St)
    requires Tracks(m, s, st) && (m.pieces == [] ==> m.tail == s)
    ensures Placed(Taken(st', m), Begins(m, s), |s|) && |s| <= Begins(m, s)
  {
    TracksTail(m, s, st);
    assert m.pieces == [] ==> Spell(m.pieces) == "";
  }

  lemma {:induction false} PlacedWiden(items: seq<Item>, from: int, to: int, from': int, to': int)
    requires Placed(items, from, to) && from <= from' && to' <= to
    ensures Placed(items, from', to')
  {
    hide InOrder;
  }

  lemma {:induction false} NextPlaced(m: Mark, s: string, st: St)
    requires Tracks(m, s, st) && (Switch(s, st).Next? || Switch(s, st).Stop?)
    ensures var n := Switch(s, st); Placed(Taken(n.st, AfterOperator(m, s, n.st)), Begins(m, s), |s|)
    ensures |s| <= Begins(m, s)
  {
    hide Placed;
    var n := Switch(s, st);
    TracksTail(m, s, st);
    if (At(s) == '<' || At(s) == '>') && n.st.temp == "" {
      TracksUnbegun(s, n.st);
      TakenPlaced(Unbegun(s), s, n.st, n.st);
      PlacedWiden(Taken(n.st, Unbegun(s)), |s|, |s|, Begins(m, s), |s|);
    } else {
      WordKept(s, st);
      assert m.pieces == [] ==> st.temp == "";
      assert m.pieces == [] && At(s) != '>' ==> m.tail == s by {
        assert Spell([]) + s == s;
      }
      TakenPlaced(m, s, st, n.st);
    }
  }

  lemma {:induction false} AgainBegins(m: Mark, s: string, st: St)
    requires Tracks(m, s, st) && Switch(s, st).Again? && At(s) != '('
    ensures Begins(Extend(m, s), Switch(s, st).rest) <= Begins(m, s)
  {
    hide RedirectCase;
  }

  /** An iteration that reads a subshell. */
  lemma {:induction false} IterateParen(s: string, st: St, m: Mark, env: Env)
    requires At(s) == '(' && Iterate(s, st, m, env).Go?
    ensures var it, inner := Iterate(s, st, m, env), Run(s[1..], Fresh(st.at), env);
            && inner.Ok? && it.rest == inner.rest && |inner.rest| < |s| && st.argv == []
            && var st1 := st.(sub := Shell(inner.tasks), at := inner.at);
               && it.items == Items(s[1..], Fresh(st.at), Unbegun(s[1..]), env) + Taken(st1, m)
               && Finish(st1, env) == Done(it.st)
  {
    hide Finish;
    hide Taken;
    hide Items;
    hide Run;
  }

  lemma {:induction false} NestedPlaced(s: string, st: St, m: Mark, env: Env)
    requires Tracks(m, s, st) && At(s) == '(' && Iterate(s, st, m, env).Go?
    ensures var it := Iterate(s, st, m, env);
            Placed(it.items, Begins(m, s), |it.rest|) && |it.rest| <= |s| <= Begins(m, s)
    decreases |s|, |st.temp|, 0
  {
    hide Placed;
    hide Finish;
    hide Taken;
    hide Items;
    hide Run;
    hide To;
    hide Spell;
    hide Value;
    hide GoodPieces;
    IterateParen(s, st, m, env);
    hide Iterate;
    var inner := Run(s[1..], Fresh(st.at), env);
    var st1 := st.(sub := Shell(inner.tasks), at := inner.at);
    var nested := Items(s[1..], Fresh(st.at), Unbegun(s[1..]), env);
    var taken := Taken(st1, m);
    TracksTail(m, s, st);
    assert Tracks(m, s, st1);
    TracksUnbegun(s[1..], Fresh(st.at));
    hide Tracks;
    ItemsPlaced(s[1..], Fresh(st.at), Unbegun(s[1..]), env);
    PlacedWiden(nested, |s| - 1, |inner.rest|, |s|, |inner.rest|);
    if taken != [] {
      PendingTarget(s, st1, m, env);
    }
    PlacedTargets(nested, taken, Begins(m, s), |s|, |inner.rest|);
  }

  lemma {:induction false} PlacedTargets(a: seq<Item>, b: seq<Item>, from: int, mid: int, to: int)
    requires Placed(a, mid, to) && to <= mid <= from
    requires b == [] || (b == [b[0]] && b[0].target && From(b[0]) <= from && mid <= To(b[0]))
    ensures Placed(a + b, from, to)
  {
    hide Placed;
    hide To;
    if b == [] {
      assert a + b == a;
      PlacedWiden(a, mid, to, from, to);
    } else {
      PlacedTarget(a, b[0], from, mid, to);
    }
  }

  /** A word pending at an opening parenthesis can only be a redirect target. */
  lemma {:induction false} PendingTarget(s: string, st: St, m: Mark, env: Env)
    requires Tracks(m, s, st) && st.sub.Shell? && Finish(st, env).Done? && Taken(st, m) != []
    ensures var x := Taken(st, m)[0];
            Taken(st, m) == [x] && x.target && From(x) <= Begins(m, s) && |s| <= To(x)
  {
    TracksTail(m, s, st);
  }

  lemma {:induction false} ItemsPlaced(s: string, st: St, m: Mark, env: Env)
    requires Tracks(m, s, st)
    ensures var r := Run(s, st, env);
            r.Ok? ==> Placed(Items(s, st, m, env), Begins(m, s), |r.rest|)
    decreases |s|, |st.temp|
  {
    hide Switch;
    hide Finish;
    hide Taken;
    hide Extend;
    hide Tracks;
    hide Placed;
    IterateIsRun(s, st, m, env);
    var it, r := Iterate(s, st, m, env), Run(s, st, env);
    if r.Ok? {
      if At(s) != '(' && Switch(s, st).Again? {
        AgainTracks(m, s, st);
        AgainBegins(m, s, st);
        ItemsPlaced(it.rest, it.st, it.mark, env);
        var more := Items(it.rest, it.st, it.mark, env);
        assert [] + more == more;
        PlacedWiden(more, Begins(it.mark, it.rest), |r.rest|, Begins(m, s), |r.rest|);
      } else if it.Go? {
        if At(s) == '(' {
          NestedPlaced(s, st, m, env);
        } else {
          NextPlaced(m, s, st);
        }
        hide AfterOperator;
        FinishEmpties(s, st, m, env);
        ItemsPlaced(it.rest, it.st, it.mark, env);
        GoPlaced(it, s, st, m, env);
      } else {
        NextPlaced(m, s, st);
        StopMark(s, st, m);
        StopRest(s, st);
        PlacedWiden(it.items, Begins(m, s), |s|, Begins(m, s), |r.rest|);
      }
    }
  }

  lemma {:induction false} StopRest(s: string, st: St)
    requires Switch(s, st).Stop?
    ensures |Switch(s, st).rest| <= |s|
  {
  }

  lemma {:induction false} GoPlaced(it: Iteration, s: string, st: St, m: Mark, env: Env)
    requires it == Iterate(s, st, m, env) && it.Go? && Run(it.rest, it.st, env).Ok? && |s| <= Begins(m, s)
    requires it.mark == Unbegun(it.rest) && |it.rest| <= |s|
    requires Placed(it.items, Begins(m, s), if At(s) == '(' then |it.rest| else |s|)
    requires Placed(Items(it.rest, it.st, it.mark, env), |it.rest|, |Run(it.rest, it.st, env).rest|)
    ensures Placed(Items(s, st, m, env), Begins(m, s), |Run(it.rest, it.st, env).rest|)
  {
    hide Placed;
    hide Iterate;
    var more, to := Items(it.rest, it.st, it.mark, env), |Run(it.rest, it.st, env).rest|;
    PlacedWiden(it.items, Begins(m, s), if At(s) == '(' then |it.rest| else |s|, Begins(m, s), |it.rest|);
    PlacedThen(it.items, more, Begins(m, s), |it.rest|, to);
  }
}

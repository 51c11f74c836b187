/** The text format of the INI store: reading it line by line, and writing a dictionary in key order. */
module IniStore {

  type Dict = map<string, string>

  // ----- reading -----

  function Find(s: string, c: char): (n: nat)
    ensures n <= |s| && (n < |s| ==> s[n] == c) && (forall i :: 0 <= i < n ==> s[i] != c)
  {
    if s == "" || s[0] == c then 0 else 1 + Find(s[1..], c)
  }

  function Tail(s: string): (r: string)
    ensures s != "" ==> |r| < |s|
  {
    var n := Find(s, '\n');
    if n < |s| then s[n + 1..] else ""
  }

  /** What repeated `getline` returns: a final newline ends the last line, it does not start another. */
  function Lines(s: string): seq<string>
    decreases |s|
  {
    if s == "" then [] else [s[..Find(s, '\n')]] + Lines(Tail(s))
  }

  predicate HasKey(line: string) { Find(line, '=') < |line| }

  function KeyOf(line: string): string { line[..Find(line, '=')] }

  function ValueOf(line: string): string
    requires HasKey(line)
  {
    line[Find(line, '=') + 1..]
  }

  /** A line without `=` is ignored; a repeated key replaces the earlier value. */
  function Put(d: Dict, line: string): Dict
  {
    if HasKey(line) then d[KeyOf(line) := ValueOf(line)] else d
  }

  function PutAll(d: Dict, lines: seq<string>): Dict
    decreases |lines|
  {
    if lines == [] then d else PutAll(Put(d, lines[0]), lines[1..])
  }

  function Load(content: string): Dict
  {
    PutAll(map[], Lines(content))
  }

  // ----- writing -----

  /** The order of `std::map<std::string, ...>`. */
  predicate Below(a: string, b: string)
  {
    b != "" && (a == "" || a[0] < b[0] || (a[0] == b[0] && Below(a[1..], b[1..])))
  }

  lemma {:induction false} BelowTotal(a: string, b: string)
    ensures a == b || Below(a, b) || Below(b, a)
    ensures !(Below(a, b) && Below(b, a)) && !Below(a, a)
    decreases |a|
  {
    if a != "" && b != "" {
      BelowTotal(a[1..], b[1..]);
      BelowTotal(a[1..], a[1..]);
      if a[0] == b[0] && a[1..] == b[1..] {
        assert a == [a[0]] + a[1..] == b;
      }
    } else if a != "" {
      BelowTotal(a[1..], a[1..]);
    }
  }

  lemma {:induction false} BelowTransitive(a: string, b: string, c: string)
    requires Below(a, b) && Below(b, c)
    ensures Below(a, c)
    decreases |a|
  {
    if a != "" && a[0] == b[0] == c[0] {
      BelowTransitive(a[1..], b[1..], c[1..]);
    }
  }

  ghost predicate IsLeast(k: string, keys: set<string>)
  {
    k in keys && forall k' :: k' in keys && k' != k ==> Below(k, k')
  }

  lemma {:induction false} LeastExists(keys: set<string>)
    requires keys != {}
    ensures exists k :: IsLeast(k, keys)
    decreases keys
  {
    var x :| x in keys;
    if keys == {x} {
      assert IsLeast(x, keys);
    } else {
      LeastExists(keys - {x});
      var y :| IsLeast(y, keys - {x});
      BelowTotal(x, y);
      var k := if Below(x, y) then x else y;
      forall k' | k' in keys && k' != k
        ensures Below(k, k')
      {
        if k == x && k' != y {
          BelowTransitive(x, y, k');
        }
      }
      assert IsLeast(k, keys);
    }
  }

  lemma LeastUnique(a: string, b: string, keys: set<string>)
    requires IsLeast(a, keys) && IsLeast(b, keys)
    ensures a == b
  {
    BelowTotal(a, b);
  }

  ghost function Least(keys: set<string>): (k: string)
    requires keys != {}
    ensures IsLeast(k, keys)
  {
    LeastExists(keys);
    var k :| IsLeast(k, keys);
    k
  }

  function Entry(k: string, v: string): string { k + "=" + v + "\n" }

  /** The entries of some keys of a dictionary, least key first. */
  ghost function TextOf(d: Dict, keys: set<string>): string
    requires keys <= d.Keys
    decreases keys
  {
    if keys == {} then ""
    else
      var k := Least(keys);
      Entry(k, d[k]) + TextOf(d, keys - {k})
  }

  ghost function Text(d: Dict): string { TextOf(d, d.Keys) }

  /** One entry is its key, `=`, its value and a newline. */
  lemma {:induction false} OneEntry(k: string, v: string)
    ensures Text(map[k := v]) == k + "=" + v + "\n"
  {
    var d: Dict := map[k := v];
    assert d.Keys == {k} && Least({k}) == k && {k} - {k} == {};
    assert TextOf(d, {k}) == Entry(k, v) + TextOf(d, {});
  }

  // ----- reading undoes writing, exactly for clean dictionaries -----

  predicate CleanKey(k: string) { '=' !in k && '\n' !in k }
  predicate CleanValue(v: string) { '\n' !in v }

  ghost predicate Clean(d: Dict)
  {
    forall k :: k in d ==> CleanKey(k) && CleanValue(d[k])
  }

  lemma {:induction false} FindFirst(a: string, c: char, b: string)
    requires c !in a
    ensures Find(a + [c] + b, c) == |a|
    decreases |a|
  {
    if a != "" {
      assert (a + [c] + b)[1..] == a[1..] + [c] + b;
      FindFirst(a[1..], c, b);
    }
  }

  lemma EntryLine(k: string, v: string, rest: string)
    requires CleanKey(k) && CleanValue(v)
    ensures var s := Entry(k, v) + rest;
            var line := k + "=" + v;
            && s != "" && Lines(s) == [line] + Lines(rest)
            && HasKey(line) && KeyOf(line) == k && ValueOf(line) == v
  {
    var line := k + "=" + v;
    var s := Entry(k, v) + rest;
    assert s == line + ['\n'] + rest;
    FindFirst(line, '\n', rest);
    assert s[..|line|] == line && s[|line| + 1..] == rest;
    assert line == k + ['='] + v;
    FindFirst(k, '=', v);
    assert line[..|k|] == k && line[|k| + 1..] == v;
  }

  function Restrict(d: Dict, keys: set<string>): Dict { map k | k in keys && k in d :: d[k] }

  lemma PutAllFirst(m: Dict, line: string, lines: seq<string>)
    ensures PutAll(m, [line] + lines) == PutAll(Put(m, line), lines)
  {
    assert ([line] + lines)[1..] == lines;
  }

  lemma MergeLeast(m: Dict, d: Dict, keys: set<string>, k: string)
    requires k in keys && k in d
    ensures m[k := d[k]] + Restrict(d, keys - {k}) == m + Restrict(d, keys)
  {
  }

  lemma {:induction false} LoadEntries(d: Dict, keys: set<string>, m: Dict)
    requires keys <= d.Keys && Clean(d)
    ensures PutAll(m, Lines(TextOf(d, keys))) == m + Restrict(d, keys)
    decreases keys
  {
    hide Lines;
    hide PutAll;
    hide Restrict;
    hide Entry;
    if keys != {} {
      var k := Least(keys);
      var line, rest := k + "=" + d[k], TextOf(d, keys - {k});
      EntryLine(k, d[k], rest);
      PutAllFirst(m, line, Lines(rest));
      LoadEntries(d, keys - {k}, Put(m, line));
      MergeLeast(m, d, keys, k);
    } else {
      NoEntries(m, d);
    }
  }

  lemma NoEntries(m: Dict, d: Dict)
    ensures PutAll(m, Lines("")) == m + Restrict(d, {})
  {
    assert m + Restrict(d, {}) == m;
  }

  lemma {:induction false} LinesClean(s: string)
    ensures forall i :: 0 <= i < |Lines(s)| ==> '\n' !in Lines(s)[i]
    decreases |s|
  {
    if s != "" {
      LinesClean(Tail(s));
    }
  }

  lemma {:induction false} PutAllClean(d: Dict, lines: seq<string>)
    requires Clean(d) && forall i :: 0 <= i < |lines| ==> '\n' !in lines[i]
    ensures Clean(PutAll(d, lines))
    decreases |lines|
  {
    if lines != [] {
      PutAllClean(Put(d, lines[0]), lines[1..]);
    }
  }

  /** Whatever the file holds, what is loaded could have been written. */
  lemma LoadIsClean(content: string)
    ensures Clean(Load(content))
  {
    LinesClean(content);
    PutAllClean(map[], Lines(content));
  }

  /**
  Loading what was written gives the dictionary back if and only if no key holds `=` or a newline
  and no value a newline.
  */
  lemma LoadText(d: Dict)
    ensures Load(Text(d)) == d <==> Clean(d)
  {
    LoadIsClean(Text(d));
    if Clean(d) {
      LoadEntries(d, d.Keys, map[]);
      assert map[] + Restrict(d, d.Keys) == d;
    }
  }

  /** Any file at all: load, flush and load again gives the same dictionary, and a second flush the same bytes. */
  lemma Normalised(content: string)
    ensures Load(Text(Load(content))) == Load(content)
    ensures Text(Load(Text(Load(content)))) == Text(Load(content))
  {
    LoadIsClean(content);
    LoadText(Load(content));
  }

  // ----- what the lines of a file are -----

  /** Lines, each with its newline. */
  function Terminated(ls: seq<string>): string
  {
    if ls == [] then "" else ls[0] + "\n" + Terminated(ls[1..])
  }

  lemma {:induction false} FindNone(a: string, c: char)
    requires c !in a
    ensures Find(a, c) == |a|
    decreases |a|
  {
    if a != "" {
      FindNone(a[1..], c);
    }
  }

  lemma {:induction false} LineEnds(line: string, rest: string)
    requires '\n' !in line
    ensures Lines(line + "\n" + rest) == [line] + Lines(rest)
  {
    var s := line + ['\n'] + rest;
    FindFirst(line, '\n', rest);
    assert s[..|line|] == line && s[|line| + 1..] == rest;
  }

  lemma {:induction false} LastLine(line: string)
    requires '\n' !in line
    ensures Lines(line) == if line == "" then [] else [line]
  {
    FindNone(line, '\n');
    if line != "" {
      assert line[..|line|] == line && Tail(line) == "" && Lines("") == [];
    }
  }

  /** The lines of a file are what its newlines end, and what follows the last of them, if anything. */
  lemma {:induction false} LinesAre(ls: seq<string>, last: string)
    requires '\n' !in last && forall i :: 0 <= i < |ls| ==> '\n' !in ls[i]
    ensures Lines(Terminated(ls) + last) == ls + if last == "" then [] else [last]
    decreases |ls|
  {
    hide Lines;
    if ls == [] {
      assert Terminated(ls) + last == last;
      LastLine(last);
    } else {
      var rest := Terminated(ls[1..]) + last;
      assert Terminated(ls) + last == ls[0] + "\n" + rest;
      LineEnds(ls[0], rest);
      LinesAre(ls[1..], last);
      assert ls == [ls[0]] + ls[1..];
    }
  }

  /** Keys are in the order of their first differing character, a prefix coming first. */
  lemma {:induction false} BelowIff(a: string, b: string)
    ensures Below(a, b) <==>
            exists i :: 0 <= i <= |a| && i < |b| && a[..i] == b[..i] && (i == |a| || a[i] < b[i])
    decreases |a|
  {
    if a == "" && b != "" {
      assert a[..0] == b[..0];
    } else if a != "" && b != "" {
      BelowIff(a[1..], b[1..]);
      if a[0] < b[0] {
        assert a[..0] == b[..0];
      }
      if a[0] == b[0] && Below(a[1..], b[1..]) {
        var i :| && 0 <= i <= |a| - 1 && i < |b| - 1 && a[1..][..i] == b[1..][..i]
                 && (i == |a| - 1 || a[1..][i] < b[1..][i]);
        assert a[..i + 1] == [a[0]] + a[1..][..i] && b[..i + 1] == [b[0]] + b[1..][..i];
        assert i + 1 == |a| || a[i + 1] < b[i + 1];
      }
      if i :| 0 <= i <= |a| && i < |b| && a[..i] == b[..i] && (i == |a| || a[i] < b[i]) {
        if i > 0 {
          assert a[0] == a[..i][0] == b[..i][0] == b[0];
          assert a[1..][..i - 1] == a[..i][1..] && b[1..][..i - 1] == b[..i][1..];
          assert i - 1 == |a[1..]| || a[1..][i - 1] < b[1..][i - 1];
        }
      }
    }
  }

  // ----- the last duplicate wins -----

  /** Index of the last line for a key, -1 if there is none. */
  function LastFor(lines: seq<string>, k: string): (i: int)
    ensures -1 <= i < |lines|
    ensures i >= 0 ==> HasKey(lines[i]) && KeyOf(lines[i]) == k
    ensures forall j :: i < j < |lines| && HasKey(lines[j]) ==> KeyOf(lines[j]) != k
  {
    if lines == [] then -1
    else
      var n := |lines| - 1;
      if HasKey(lines[n]) && KeyOf(lines[n]) == k then n else LastFor(lines[..n], k)
  }

  lemma {:induction false} PutAllLast(d: Dict, lines: seq<string>)
    requires lines != []
    ensures PutAll(d, lines) == Put(PutAll(d, lines[..|lines| - 1]), lines[|lines| - 1])
    decreases |lines|
  {
    var n := |lines| - 1;
    if n > 0 {
      PutAllLast(Put(d, lines[0]), lines[1..]);
      assert lines[1..][..n - 1] == lines[..n][1..];
    }
  }

  lemma {:induction false} PutAllLookup(lines: seq<string>, k: string)
    ensures var d, i := PutAll(map[], lines), LastFor(lines, k);
            (k in d <==> i >= 0) && (k in d ==> d[k] == ValueOf(lines[i]))
    decreases |lines|
  {
    if lines != [] {
      PutAllLast(map[], lines);
      PutAllLookup(lines[..|lines| - 1], k);
    }
  }

  /** A key is loaded exactly when some line has it, with the value on the last such line. */
  lemma LoadLookup(content: string, k: string)
    ensures var d, i := Load(content), LastFor(Lines(content), k);
            (k in d <==> i >= 0) && (k in d ==> d[k] == ValueOf(Lines(content)[i]))
  {
    PutAllLookup(Lines(content), k);
  }
}

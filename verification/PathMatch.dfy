/** `matchComponent`: a parameter path is a component key, an instance number and a setting. */
module PathMatch {
  import opened CStrings
  import opened Decimal

  const MAX_NUM_LEN: nat := 10

  datatype Match = NoMatch | Match(instance: int, setting: string)

  predicate SameIgnoringCase(a: string, b: string)
  {
    |a| == |b| && forall i :: 0 <= i < |a| ==> Lower(a[i]) == Lower(b[i])
  }

  /** `strchr(s, '.')`: its position, or the length when there is none. */
  function Dot(s: string): (n: nat)
    ensures n <= |s| && (n < |s| ==> s[n] == '.') && forall i :: 0 <= i < n ==> s[i] != '.'
  {
    if s == "" || s[0] == '.' then 0 else 1 + Dot(s[1..])
  }

  function Atoi(s: string): int { Int32(Strtol(s).0) }

  function MatchComponent(param: string, key: string): Match
  {
    if |param| < |key| || !SameIgnoringCase(param[..|key|], key) then NoMatch
    else
      var rest := param[|key|..];
      if rest == "" || rest[0] != '.' then NoMatch
      else
        var n := Dot(rest[1..]);
        if n == |rest| - 1 || n >= MAX_NUM_LEN then NoMatch
        else Match(Atoi(rest[1..][..n]), rest[n + 2..])
  }

  // ----- decomposition -----

  /** `param` is `head.number.setting` with `head` the key up to letter case and a short dot-free number. */
  ghost predicate Decomposes(param: string, key: string, head: string, number: string, setting: string)
  {
    && param == head + "." + number + "." + setting
    && SameIgnoringCase(head, key) && '.' !in number && |number| < MAX_NUM_LEN
  }

  lemma {:induction false} DotFirst(a: string, b: string)
    requires '.' !in a
    ensures Dot(a + "." + b) == |a|
    decreases |a|
  {
    if a != "" {
      assert (a + "." + b)[1..] == a[1..] + "." + b;
      DotFirst(a[1..], b);
    }
  }

  lemma {:induction false} DecomposedMatches(param: string, key: string, head: string, number: string, setting: string)
    requires Decomposes(param, key, head, number, setting)
    ensures MatchComponent(param, key) == Match(Atoi(number), setting)
  {
    hide Strtol;
    assert param[..|key|] == head;
    var rest := param[|key|..];
    assert rest == "." + number + "." + setting && rest[1..] == number + "." + setting;
    DotFirst(number, setting);
    assert rest[1..][..|number|] == number && rest[|number| + 2..] == setting;
  }

  lemma {:induction false} Reassemble(param: string, k: nat, n: nat)
    requires k + n + 1 < |param| && param[k] == '.' && param[k + n + 1] == '.'
    ensures param == param[..k] + "." + param[k + 1..k + n + 1] + "." + param[k + n + 2..]
  {
  }

  lemma {:induction false} MatchedDecomposes(param: string, key: string)
    returns (head: string, number: string, setting: string)
    requires MatchComponent(param, key).Match?
    ensures Decomposes(param, key, head, number, setting)
  {
    hide Atoi;
    var k := |key|;
    var rest := param[k..];
    var n := Dot(rest[1..]);
    assert rest[1..] == param[k + 1..];
    assert param[k] == rest[0] && param[k + n + 1] == rest[1..][n];
    head, number, setting := param[..k], param[k + 1..k + n + 1], param[k + n + 2..];
    assert forall i :: 0 <= i < n ==> number[i] == rest[1..][i];
    Reassemble(param, k, n);
  }

  /** A match is exactly such a decomposition, which is unique. */
  lemma {:induction false} MatchIsDecomposition(param: string, key: string)
    ensures MatchComponent(param, key).Match? <==>
            exists head, number, setting :: Decomposes(param, key, head, number, setting)
    ensures forall head, number, setting :: Decomposes(param, key, head, number, setting) ==>
              MatchComponent(param, key) == Match(Atoi(number), setting)
  {
    hide Atoi;
    hide MatchComponent;
    hide Decomposes;
    if MatchComponent(param, key).Match? {
      var head, number, setting := MatchedDecomposes(param, key);
    }
    forall head, number, setting | Decomposes(param, key, head, number, setting)
      ensures MatchComponent(param, key) == Match(Atoi(number), setting)
    {
      DecomposedMatches(param, key, head, number, setting);
    }
  }

  // ----- paths that are built -----

  function Path(key: string, n: nat, setting: string): string
  {
    key + "." + Show(n) + "." + setting
  }

  /** Matching undoes building, for any key and setting, exactly for instances of at most nine digits. */
  lemma {:induction false} MatchUndoesPath(key: string, n: nat, setting: string)
    ensures MatchComponent(Path(key, n, setting), key) ==
            if n < 1_000_000_000 then Match(n, setting) else NoMatch
  {
    hide Strtol;
    var number := Show(n);
    assert '.' !in number by {
      assert forall i :: 0 <= i < |number| ==> IsDigit(number[i]);
    }
    NineDigits(n);
    if |number| < MAX_NUM_LEN {
      DecomposedMatches(Path(key, n, setting), key, key, number, setting);
      StrtolShow(n, "");
      assert number + "" == number;
    } else {
      var rest := Path(key, n, setting)[|key|..];
      assert rest[1..] == number + "." + setting;
      DotFirst(number, setting);
    }
  }

  lemma {:induction false} NineDigits(n: nat)
    ensures |Show(n)| < MAX_NUM_LEN <==> n < 1_000_000_000
  {
    assert Pow10(3) == 1000;
    assert Pow10(6) == 1000 * Pow10(3);
    assert Pow10(9) == 1000 * Pow10(6);
    if n < 1_000_000_000 {
      ShowLength(n, 9);
    } else {
      ShowLengthAtLeast(n, 9);
    }
  }

  /** Nested instances, such as an address of an interface, are recovered one after the other. */
  lemma {:induction false} NestedPath(key: string, n: nat, inner: string, m: nat, setting: string)
    requires n < 1_000_000_000 && m < 1_000_000_000
    ensures var outer := MatchComponent(Path(key, n, Path(inner, m, setting)), key);
            && outer == Match(n, Path(inner, m, setting))
            && MatchComponent(outer.setting, inner) == Match(m, setting)
  {
    hide MatchComponent;
    hide Path;
    MatchUndoesPath(key, n, Path(inner, m, setting));
    MatchUndoesPath(inner, m, setting);
  }
}

/** Decimal text: what `strtol` reads and `%d` prints. */
module Decimal {

  predicate IsDigit(c: char) { '0' <= c <= '9' }
  predicate IsSpace(c: char) { c == ' ' || '\t' <= c <= '\r' }

  function DigitValue(c: char): nat
    requires IsDigit(c)
  {
    (c as int - '0' as int) as nat
  }

  function DigitChar(d: nat): (c: char)
    requires d < 10
    ensures IsDigit(c) && DigitValue(c) == d
  {
    ('0' as int + d) as char
  }

  /** Length of the longest prefix of digits. */
  function Digits(s: string): (n: nat)
    ensures n <= |s| && (forall i :: 0 <= i < n ==> IsDigit(s[i]))
    ensures n < |s| ==> !IsDigit(s[n])
  {
    if s == "" || !IsDigit(s[0]) then 0 else 1 + Digits(s[1..])
  }

  function Spaces(s: string): (n: nat)
    ensures n <= |s|
  {
    if s == "" || !IsSpace(s[0]) then 0 else 1 + Spaces(s[1..])
  }

  /** Value of a string of digits. */
  function Value(s: string): nat
    requires forall i :: 0 <= i < |s| ==> IsDigit(s[i])
  {
    if s == "" then 0 else Value(s[..|s| - 1]) * 10 + DigitValue(s[|s| - 1])
  }

  function Clamp(v: int, lo: int, hi: int): int
    requires lo <= hi
  {
    if v < lo then lo else if v > hi then hi else v
  }

  /** Truncation to a 32-bit signed integer. */
  function Int32(v: int): (r: int)
    ensures -0x8000_0000 <= r < 0x8000_0000
    ensures -0x8000_0000 <= v < 0x8000_0000 ==> r == v
  {
    (v + 0x8000_0000) % 0x1_0000_0000 - 0x8000_0000
  }

  /** Outside the range it wraps around. */
  lemma Int32Wraps(v: int)
    ensures (v - Int32(v)) % 0x1_0000_0000 == 0
  {
  }

  /** `strtol(s, &end, 10)` on a 64-bit long: the value and how many characters were used, 0 if none. */
  function Strtol(s: string): (r: (int, nat))
    ensures r.1 <= |s|
  {
    var sp := Spaces(s);
    var neg := sp < |s| && s[sp] == '-';
    var start := if neg || (sp < |s| && s[sp] == '+') then sp + 1 else sp;
    var n := Digits(s[start..]);
    if n == 0 then (0, 0)
    else
      var v: int := Value(s[start..][..n]);
      (Clamp(if neg then -v else v, -0x8000_0000_0000_0000, 0x7fff_ffff_ffff_ffff), start + n)
  }

  /** `%d` of a natural number. */
  function Show(n: nat): (s: string)
    ensures s != "" && (forall i :: 0 <= i < |s| ==> IsDigit(s[i]))
    ensures Value(s) == n
  {
    if n < 10 then
      assert [DigitChar(n)][..0] == "";
      [DigitChar(n)]
    else
      var s := Show(n / 10) + [DigitChar(n % 10)];
      assert s[..|s| - 1] == Show(n / 10);
      s
  }

  /** `%d`. */
  function ShowInt(n: int): string
  {
    if n < 0 then "-" + Show(-n) else Show(n)
  }

  lemma {:induction false} DigitsOf(d: string, rest: string)
    requires forall i :: 0 <= i < |d| ==> IsDigit(d[i])
    requires rest == "" || !IsDigit(rest[0])
    ensures Digits(d + rest) == |d|
    decreases |d|
  {
    if d == "" {
      assert d + rest == rest;
    } else {
      assert (d + rest)[1..] == d[1..] + rest;
      DigitsOf(d[1..], rest);
    }
  }

  /** Reading back a printed number, whatever non-digit follows. */
  lemma StrtolShow(n: nat, rest: string)
    requires n < 0x8000_0000
    requires rest == "" || !IsDigit(rest[0])
    ensures Strtol(Show(n) + rest) == (n, |Show(n)|)
  {
    var s := Show(n) + rest;
    assert IsDigit(s[0]) && s[0..] == s;
    DigitsOf(Show(n), rest);
    assert s[..|Show(n)|] == Show(n);
  }

  lemma {:induction false} SpacesOf(sp: string, rest: string)
    requires (forall i :: 0 <= i < |sp| ==> IsSpace(sp[i])) && (rest == "" || !IsSpace(rest[0]))
    ensures Spaces(sp + rest) == |sp|
    decreases |sp|
  {
    if sp == "" {
      assert sp + rest == rest;
    } else {
      assert (sp + rest)[1..] == sp[1..] + rest;
      SpacesOf(sp[1..], rest);
    }
  }

  /** Blanks, an optional sign, digits, and whatever does not go on with them. */
  ghost predicate IsNumeral(s: string, sp: string, sign: string, d: string, rest: string)
  {
    && s == sp + (sign + (d + rest)) && sign in ["", "+", "-"]
    && (forall i :: 0 <= i < |sp| ==> sp[i] in " \t\n\U{b}\U{c}\r")
    && (forall i :: 0 <= i < |d| ==> IsDigit(d[i])) && (rest == "" || !IsDigit(rest[0]))
  }

  lemma {:induction false} NumeralSign(s: string, sp: string, sign: string, d: string, rest: string)
    requires IsNumeral(s, sp, sign, d, rest) && d != ""
    ensures Spaces(s) == |sp| < |s|
    ensures (s[|sp|] == '-' <==> sign == "-") && (s[|sp|] == '+' <==> sign == "+")
  {
    var tail := sign + (d + rest);
    assert tail[0] == if sign == "" then d[0] else sign[0];
    assert s[|sp|] == tail[0];
    SpacesOf(sp, tail);
    hide Spaces;
    assert IsDigit(d[0]);
  }

  lemma {:induction false} NumeralParts(s: string, sp: string, sign: string, d: string, rest: string)
    requires IsNumeral(s, sp, sign, d, rest) && d != ""
    ensures var k := |sp| + |sign|;
            && Spaces(s) == |sp| < |s| && k + |d| <= |s|
            && (s[|sp|] == '-' <==> sign == "-") && (s[|sp|] == '+' <==> sign == "+")
            && Digits(s[k..]) == |d| && s[k..][..|d|] == d
  {
    hide Spaces;
    NumeralSign(s, sp, sign, d, rest);
    DigitsOf(d, rest);
    hide IsSpace;
    hide IsDigit;
    assert s[|sp| + |sign|..] == d + rest;
    assert (d + rest)[..|d|] == d;
  }

  lemma {:induction false} StrtolOfParts(s: string, k: nat, neg: bool, d: string)
    requires var sp := Spaces(s);
             sp < |s| && (neg <==> s[sp] == '-') && k == (if neg || s[sp] == '+' then sp + 1 else sp) && k <= |s|
    requires d != "" && Digits(s[k..]) == |d| && s[k..][..|d|] == d
    requires forall i :: 0 <= i < |d| ==> IsDigit(d[i])
    ensures var n: int := Value(d);
            Strtol(s) == (Clamp(if neg then -n else n, -0x8000_0000_0000_0000, 0x7fff_ffff_ffff_ffff), k + |d|)
  {
    hide Spaces;
    hide Digits;
    hide Value;
    hide Clamp;
  }

  /** `strtol` reads such a number, saturating at 64 bits, and stops behind its digits. */
  lemma {:induction false} StrtolReads(s: string, sp: string, sign: string, d: string, rest: string)
    requires IsNumeral(s, sp, sign, d, rest) && d != ""
    ensures var n: int := Value(d);
            var v := if sign == "-" then -n else n;
            && Strtol(s).1 == |sp| + |sign| + |d|
            && (-0x8000_0000_0000_0000 <= v <= 0x7fff_ffff_ffff_ffff ==> Strtol(s).0 == v)
            && (v < -0x8000_0000_0000_0000 ==> Strtol(s).0 == -0x8000_0000_0000_0000)
            && (v > 0x7fff_ffff_ffff_ffff ==> Strtol(s).0 == 0x7fff_ffff_ffff_ffff)
  {
    hide Strtol;
    hide Spaces;
    hide Digits;
    hide Value;
    NumeralParts(s, sp, sign, d, rest);
    StrtolOfParts(s, |sp| + |sign|, sign == "-", d);
  }

  /** Without digits it reads nothing. */
  lemma {:induction false} StrtolNothing(s: string, sp: string, sign: string, rest: string)
    requires IsNumeral(s, sp, sign, "", rest) && (sign == "" ==> rest == "" || !(IsSpace(rest[0]) || rest[0] in "+-"))
    ensures Strtol(s) == (0, 0)
  {
    var tail := sign + ("" + rest);
    assert "" + rest == rest && (sign != "" ==> tail[0] == sign[0]) && (sign == "" ==> tail == rest);
    SpacesOf(sp, tail);
    hide Spaces;
    assert s[|sp|..] == tail && s[|sp| + |sign|..] == rest;
  }

  function Pow10(k: nat): nat { if k == 0 then 1 else 10 * Pow10(k - 1) }

  lemma {:induction false} ShowLength(n: nat, k: nat)
    requires n < Pow10(k) && k > 0
    ensures |Show(n)| <= k
    decreases k
  {
    if n >= 10 {
      ShowLength(n / 10, k - 1);
    }
  }

  lemma {:induction false} ShowLengthAtLeast(n: nat, k: nat)
    requires n >= Pow10(k)
    ensures |Show(n)| > k
    decreases k
  {
    if k > 0 {
      ShowLengthAtLeast(n / 10, k - 1);
    }
  }

  lemma ShowFdLength(n: nat)
    requires n < 0x8000_0000
    ensures |Show(n)| <= 10
  {
    assert Pow10(3) == 1000;
    assert Pow10(6) == 1000 * Pow10(3);
    assert Pow10(9) == 1000 * Pow10(6);
    ShowLength(n, 10);
  }
}

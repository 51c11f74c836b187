/** The typed value of a message: text stored as bytes of its declared type, and turned back into text. */
module Envelope {
  import opened CStrings
  import opened Decimal

  const MAX_PARAM_LEN: nat := 4096

  datatype ParamType = StringType | IntegerType | UnsignedIntType | BooleanType | DateTimeType | UnsignedLongType

  /** `Overflow`: the decimal text and its terminator do not fit the ten bytes that `int_to_string` provides. */
  datatype Outcome = Text(s: string) | Overflow

  const WORD32: nat := 0x1_0000_0000
  const WORD64: nat := 0x1_0000_0000_0000_0000

  // ----- bytes -----

  /** Little-endian bytes of an unsigned value. */
  function Encode(v: nat, k: nat): (b: string)
    ensures |b| == k && forall i :: 0 <= i < k ==> (b[i] as int) < 256
  {
    if k == 0 then "" else [(v % 256) as char] + Encode(v / 256, k - 1)
  }

  function Decode(b: string): nat
  {
    if b == "" then 0 else b[0] as nat + 256 * Decode(b[1..])
  }

  function Pow256(k: nat): (p: nat)
    ensures p > 0
  {
    if k == 0 then 1 else 256 * Pow256(k - 1)
  }

  lemma {:induction false} DecodeEncode(v: nat, k: nat)
    requires v < Pow256(k)
    ensures Decode(Encode(v, k)) == v
    decreases k
  {
    if k > 0 {
      var b := Encode(v, k);
      assert b[1..] == Encode(v / 256, k - 1);
      DecodeEncode(v / 256, k - 1);
    }
  }

  lemma Widths()
    ensures Pow256(1) == 256 && Pow256(4) == WORD32 && Pow256(8) == WORD64
  {
    assert Pow256(4) == 256 * 256 * Pow256(2);
    assert Pow256(8) == 256 * 256 * Pow256(6) && Pow256(6) == 256 * 256 * Pow256(4);
  }

  function Zeros(n: nat): (z: string)
    ensures |z| == n && forall i :: 0 <= i < n ==> z[i] == '\0'
  {
    seq(n, i => '\0')
  }

  // ----- text to number -----

  /** `strtoul`: a leading minus negates modulo the word, and too large a number saturates. */
  function Strtoul(s: string): (v: nat)
    ensures v < WORD64
  {
    var sp := Spaces(s);
    var neg := sp < |s| && s[sp] == '-';
    var start := if neg || (sp < |s| && s[sp] == '+') then sp + 1 else sp;
    var n := Value(s[start..][..Digits(s[start..])]);
    if n >= WORD64 then WORD64 - 1 else if neg then (WORD64 - n) % WORD64 else n
  }

  predicate IsTrue(s: string)
  {
    (|s| == 4 && forall i :: 0 <= i < 4 ==> Lower(s[i]) == "true"[i]) || s == "1"
  }

  // ----- the envelope -----

  /** The bytes written over the cleared buffer. */
  function Bytes(t: ParamType, value: string): (b: string)
    ensures |b| <= MAX_PARAM_LEN
  {
    var c := UpToNul(value);
    match t
    case StringType => if |c| < MAX_PARAM_LEN then c else ""
    case IntegerType => Encode(Int32(Strtol(c).0) % WORD32, 4)
    case UnsignedIntType => Encode(Strtoul(c) % WORD32, 4)
    case BooleanType => [if IsTrue(c) then 1 as char else 0 as char]
    case UnsignedLongType => Encode(Strtoul(c), 8)
    case DateTimeType => ""
  }

  /** The buffer after `putValue`. */
  function Stored(t: ParamType, value: string): (b: string)
    ensures |b| == MAX_PARAM_LEN
  {
    Bytes(t, value) + Zeros(MAX_PARAM_LEN - |Bytes(t, value)|)
  }

  function IntText(n: int): Outcome
  {
    if |ShowInt(n)| <= 9 then Text(ShowInt(n)) else Overflow
  }

  /** `getStringValue`. `get_ulong` returns an int, which is widened again. */
  function StringValue(t: ParamType, buffer: string): Outcome
    requires |buffer| == MAX_PARAM_LEN
  {
    match t
    case StringType => Text(UpToNul(buffer))
    case IntegerType => IntText(Int32(Decode(buffer[..4])))
    case UnsignedIntType => Text(Show(Decode(buffer[..4])))
    case BooleanType => Text(if Decode(buffer[..1]) != 0 then "true" else "false")
    case UnsignedLongType => Text(Show(Int32(Decode(buffer[..8])) % WORD64))
    case DateTimeType => Text("")
  }

  function Normal(t: ParamType, value: string): Outcome { StringValue(t, Stored(t, value)) }

  // ----- what comes back -----

  lemma {:induction false} StoredPrefix(t: ParamType, value: string, k: nat)
    requires k == |Bytes(t, value)|
    ensures Stored(t, value)[..k] == Bytes(t, value)
  {
    hide Bytes;
  }

  lemma {:induction false} StoredNumber(v: nat, k: nat, t: ParamType, value: string)
    requires v < Pow256(k) && k <= MAX_PARAM_LEN && Bytes(t, value) == Encode(v, k)
    ensures Decode(Stored(t, value)[..k]) == v
  {
    hide Bytes;
    hide Decode;
    StoredPrefix(t, value, k);
    DecodeEncode(v, k);
  }

  lemma {:induction false} NormalString(value: string)
    ensures Normal(StringType, value) == Text(if |UpToNul(value)| < MAX_PARAM_LEN then UpToNul(value) else "")
  {
    UpToNulLength(value);
    var b := Bytes(StringType, value);
    var z := Zeros(MAX_PARAM_LEN - |b|);
    assert z == ['\0'] + z[1..];
    assert Stored(StringType, value) == b + ['\0'] + z[1..];
    UpToNulTerminated(b, z[1..]);
  }

  lemma {:induction false} NormalInteger(value: string)
    ensures Normal(IntegerType, value) == IntText(Int32(Strtol(UpToNul(value)).0))
  {
    hide Strtol;
    Widths();
    var n := Int32(Strtol(UpToNul(value)).0);
    StoredNumber(n % WORD32, 4, IntegerType, value);
    assert Int32(n % WORD32) == n;
  }

  lemma {:induction false} NormalUnsigned(value: string)
    ensures Normal(UnsignedIntType, value) == Text(Show(Strtoul(UpToNul(value)) % WORD32))
  {
    hide Strtoul;
    Widths();
    StoredNumber(Strtoul(UpToNul(value)) % WORD32, 4, UnsignedIntType, value);
  }

  lemma {:induction false} NormalBoolean(value: string)
    ensures Normal(BooleanType, value) == Text(if IsTrue(UpToNul(value)) then "true" else "false")
  {
    var b := Bytes(BooleanType, value);
    StoredPrefix(BooleanType, value, 1);
    assert b[1..] == "" && Decode(b) == b[0] as nat;
  }

  lemma {:induction false} NormalLong(value: string)
    ensures Normal(UnsignedLongType, value) == Text(Show(Int32(Strtoul(UpToNul(value))) % WORD64))
  {
    hide Strtoul;
    Widths();
    StrtoulBound(UpToNul(value));
    StoredNumber(Strtoul(UpToNul(value)), 8, UnsignedLongType, value);
  }

  lemma StrtoulBound(s: string)
    ensures Strtoul(s) < WORD64
  {
  }

  // ----- canonical text -----

  lemma {:induction false} ShowPlain(n: nat)
    ensures UpToNul(Show(n)) == Show(n) && UpToNul("-" + Show(n)) == "-" + Show(n)
  {
    assert '\0' !in Show(n) by {
      assert forall i :: 0 <= i < |Show(n)| ==> IsDigit(Show(n)[i]);
    }
    UpToNulPlain(Show(n));
    UpToNulPlain("-" + Show(n));
  }

  lemma {:induction false} StrtoulShow(n: nat)
    requires n < WORD64
    ensures Strtoul(Show(n)) == n
  {
    var s := Show(n);
    assert IsDigit(s[0]) && s[0..] == s;
    DigitsOf(s, "");
    assert s + "" == s && s[..|s|] == s;
  }

  lemma {:induction false} StrtolShowInt(n: int)
    requires -0x8000_0000 <= n < 0x8000_0000
    ensures Strtol(ShowInt(n)).0 == n
  {
    if n >= 0 {
      StrtolShow(n, "");
      assert Show(n) + "" == Show(n);
    } else {
      var d := Show(-n);
      var s := "-" + d;
      assert s[1..] == d && Spaces(s) == 0;
      DigitsOf(d, "");
      assert d + "" == d && d[..|d|] == d;
    }
  }

  lemma {:induction false} StrtoulOfParts(s: string, k: nat, neg: bool, d: string)
    requires var sp := Spaces(s);
             sp < |s| && (neg <==> s[sp] == '-') && k == (if neg || s[sp] == '+' then sp + 1 else sp) && k <= |s|
    requires Digits(s[k..]) == |d| && s[k..][..|d|] == d && forall i :: 0 <= i < |d| ==> IsDigit(d[i])
    ensures var n := Value(d);
            Strtoul(s) == if n >= WORD64 then WORD64 - 1 else if neg then (WORD64 - n) % WORD64 else n
  {
    hide Spaces;
    hide Digits;
    hide Value;
  }

  /** `strtoul` of blanks, a sign, digits and a rest: modulo the word if negative, saturated if too large. */
  lemma {:induction false} StrtoulReads(s: string, sp: string, sign: string, d: string, rest: string)
    requires IsNumeral(s, sp, sign, d, rest) && d != ""
    ensures var n := Value(d);
            && (n >= WORD64 ==> Strtoul(s) == WORD64 - 1)
            && (n < WORD64 && sign != "-" ==> Strtoul(s) == n)
            && (0 < n < WORD64 && sign == "-" ==> Strtoul(s) == WORD64 - n)
            && (n == 0 ==> Strtoul(s) == 0)
  {
    hide Strtoul;
    hide Spaces;
    hide Digits;
    hide Value;
    NumeralParts(s, sp, sign, d, rest);
    StrtoulOfParts(s, |sp| + |sign|, sign == "-", d);
  }

  /** The bytes of a number, least significant first. */
  lemma {:induction false} EncodeAt(v: nat, k: nat, i: nat)
    requires i < k
    ensures Encode(v, k)[i] as int == v / Pow256(i) % 256
    decreases k
  {
    if i > 0 {
      EncodeAt(v / 256, k - 1, i - 1);
      DivTwice(v, Pow256(i - 1));
    }
  }

  lemma {:induction false} DivTwice(v: nat, m: nat)
    requires m > 0
    ensures v / 256 / m == v / (256 * m)
  {
    var q := v / (256 * m);
    var r := v - q * (256 * m);
    assert 0 <= r < 256 * m;
    assert v / 256 == q * m + r / 256 by {
      assert v == 256 * (q * m) + r;
    }
    assert 0 <= r / 256 < m;
    DivUnique(v / 256, m, q, r / 256);
  }

  lemma {:induction false} DivUnique(v: nat, m: nat, q: nat, r: nat)
    requires v == q * m + r && r < m
    ensures v / m == q
  {
    var q' := v / m;
    assert q' < q ==> (q' + 1) * m <= q * m;
    assert q' > q ==> (q + 1) * m <= q' * m;
  }

  /** Exactly "1" and any spelling of "true" in capital and small letters come back as true; all else as false. */
  lemma {:induction false} BooleanIs(s: string)
    requires '\0' !in s
    ensures var yes := s == "1" || (|s| == 4 && s[0] in "tT" && s[1] in "rR" && s[2] in "uU" && s[3] in "eE");
            Normal(BooleanType, s) == Text(if yes then "true" else "false")
  {
    UpToNulPlain(s);
    NormalBoolean(s);
    hide Normal;
    if |s| == 4 {
      assert "true"[0] == 't' && "true"[1] == 'r' && "true"[2] == 'u' && "true"[3] == 'e';
    }
  }

  /** A stored boolean is one byte, 1 or 0, and a stored number its bytes, lowest first; the rest is cleared. */
  lemma {:induction false} StoredBoolean(s: string)
    ensures var b := Stored(BooleanType, s);
            && b[0] == (if Normal(BooleanType, s) == Text("true") then 1 as char else 0 as char)
            && forall i :: 1 <= i < 4096 ==> b[i] == '\0'
  {
    NormalBoolean(s);
    hide Normal;
  }

  lemma {:induction false} StoredInteger(n: int, i: nat)
    requires -0x8000_0000 <= n < 0x8000_0000 && i < 4096
    ensures Stored(IntegerType, ShowInt(n))[i] as int == if i < 4 then n % WORD32 / Pow256(i) % 256 else 0
  {
    hide Strtol;
    hide Encode;
    if n < 0 { ShowPlain(-n); } else { ShowPlain(n); }
    StrtolShowInt(n);
    if i < 4 {
      EncodeAt(n % WORD32, 4, i);
    }
    EncodeLength(n % WORD32, 4);
  }

  lemma {:induction false} StoredUnsigned(n: nat, t: ParamType, i: nat)
    requires n < WORD64 && i < 4096 && (t == UnsignedIntType || t == UnsignedLongType)
    ensures var (v, k) := if t == UnsignedIntType then (n % WORD32, 4) else (n, 8);
            Stored(t, Show(n))[i] as int == if i < k then v / Pow256(i) % 256 else 0
  {
    hide Strtoul;
    hide Encode;
    ShowPlain(n);
    StrtoulShow(n);
    var (v, k) := if t == UnsignedIntType then (n % WORD32, 4) else (n, 8);
    if i < k {
      EncodeAt(v, k, i);
    }
    EncodeLength(v, k);
  }

  lemma EncodeLength(v: nat, k: nat)
    ensures |Encode(v, k)| == k
  {
  }

  /** Strings shorter than the buffer come back; longer ones are replaced by the empty string. */
  lemma {:induction false} StringIdentity(s: string)
    requires '\0' !in s
    ensures Normal(StringType, s) == Text(s) <==> |s| < 4096
    ensures |s| >= 4096 ==> Normal(StringType, s) == Text("")
  {
    UpToNulPlain(s);
    NormalString(s);
  }

  /** A 32-bit integer comes back unless its text has more than nine characters, which overflows the text buffer. */
  lemma {:induction false} IntegerIdentity(n: int)
    requires -0x8000_0000 <= n < 0x8000_0000
    ensures Normal(IntegerType, ShowInt(n)) == if |ShowInt(n)| <= 9 then Text(ShowInt(n)) else Overflow
  {
    hide Strtol;
    if n < 0 { ShowPlain(-n); } else { ShowPlain(n); }
    NormalInteger(ShowInt(n));
    StrtolShowInt(n);
  }

  /** Every 32-bit unsigned value comes back; larger ones are reduced modulo the word. */
  lemma {:induction false} UnsignedIdentity(n: nat)
    requires n < WORD64
    ensures Normal(UnsignedIntType, Show(n)) == Text(Show(n % WORD32))
  {
    hide Strtoul;
    ShowPlain(n);
    NormalUnsigned(Show(n));
    StrtoulShow(n);
  }

  lemma {:induction false} BooleanIdentity(b: bool)
    ensures Normal(BooleanType, if b then "true" else "false") == Text(if b then "true" else "false")
  {
    var s := if b then "true" else "false";
    UpToNulPlain(s);
    NormalBoolean(s);
    assert !IsTrue("false") by { assert |"false"| == 5; }
  }

  lemma {:induction false} ShowInjective(a: nat, b: nat)
    requires Show(a) == Show(b)
    ensures a == b
  {
    assert Value(Show(a)) == a && Value(Show(b)) == b;
  }

  /**
  An unsigned long comes back exactly when it is below 2^31 or within 2^31 of the top: reading it
  truncates to an int.
  */
  lemma {:induction false} LongIdentity(n: nat)
    requires n < WORD64
    ensures Normal(UnsignedLongType, Show(n)) == Text(Show(n)) <==> n < 0x8000_0000 || n >= WORD64 - 0x8000_0000
  {
    hide Strtoul;
    ShowPlain(n);
    NormalLong(Show(n));
    StrtoulShow(n);
    var back := Int32(n) % WORD64;
    if Show(back) == Show(n) {
      ShowInjective(back, n);
    }
    LongBack(n);
  }

  lemma {:induction false} LongBack(n: nat)
    requires n < WORD64
    ensures Int32(n) % WORD64 == n <==> n < 0x8000_0000 || n >= WORD64 - 0x8000_0000
  {
    var r := Int32(n);
    if r >= 0 {
      assert r % WORD64 == r;
    } else {
      assert r % WORD64 == r + WORD64;
    }
  }

  /** What comes back is a normal form: put again, it comes back unchanged, whatever text was put first. */
  lemma {:induction false} NormalIsIdempotent(t: ParamType, value: string)
    ensures Normal(t, value).Text? ==> Normal(t, Normal(t, value).s) == Normal(t, value)
  {
    hide Strtol;
    hide Strtoul;
    hide Show;
    hide Normal;
    hide IsTrue;
    hide Int32;
    var c := UpToNul(value);
    match t
    case StringType =>
      NormalString(value);
      UpToNulLength(value);
      StringIdentity(if |c| < MAX_PARAM_LEN then c else "");
    case IntegerType =>
      NormalInteger(value);
      IntRange(Strtol(c).0);
      IntegerIdentity(Int32(Strtol(c).0));
    case UnsignedIntType =>
      NormalUnsigned(value);
      UnsignedIdentity(Strtoul(c) % WORD32);
    case BooleanType =>
      NormalBoolean(value);
      BooleanIdentity(IsTrue(c));
    case UnsignedLongType =>
      NormalLong(value);
      var back := Int32(Strtoul(c)) % WORD64;
      StrtoulBound(c);
      LongIsFixed(Strtoul(c));
      LongIdentity(back);
    case DateTimeType =>
      NormalDateTime(value);
      NormalDateTime("");
  }

  lemma IntRange(v: int)
    ensures -0x8000_0000 <= Int32(v) < 0x8000_0000
  {
  }

  lemma NormalDateTime(value: string)
    ensures Normal(DateTimeType, value) == Text("")
  {
  }

  lemma {:induction false} LongIsFixed(v: nat)
    ensures var back := Int32(v) % WORD64; back < 0x8000_0000 || back >= WORD64 - 0x8000_0000
  {
    var r := Int32(v);
    if r >= 0 {
      assert r % WORD64 == r;
    } else {
      assert r % WORD64 == r + WORD64;
    }
  }

  // ----- the buffer -----

  class Message {
    const paramType: ParamType
    const paramValue: array<char>

    constructor (t: ParamType)
      ensures paramType == t && paramValue.Length == MAX_PARAM_LEN && fresh(paramValue)
    {
      paramType := t;
      paramValue := new char[MAX_PARAM_LEN](i => '\0');
    }

    /** `putValue`: clear the buffer, then write the bytes of the value at its start. */
    method PutValue(value: string)
      requires paramValue.Length == MAX_PARAM_LEN
      modifies paramValue
      ensures paramValue[..] == Stored(paramType, value)
    {
      hide Bytes;
      var i := 0;
      while i < MAX_PARAM_LEN
        invariant 0 <= i <= MAX_PARAM_LEN
        invariant forall j :: 0 <= j < i ==> paramValue[j] == '\0'
      {
        paramValue[i] := '\0';
        i := i + 1;
      }
      var b := Bytes(paramType, value);
      i := 0;
      while i < |b|
        invariant 0 <= i <= |b|
        invariant forall j :: 0 <= j < i ==> paramValue[j] == b[j]
        invariant forall j :: i <= j < MAX_PARAM_LEN ==> paramValue[j] == '\0'
      {
        paramValue[i] := b[i];
        i := i + 1;
      }
      assert paramValue[..] == Stored(paramType, value);
    }
  }
}

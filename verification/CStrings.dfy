/** C strings: characters up to the first NUL. */
module CStrings {

  /** The character at the front of a C string. */
  function At(s: string): char
  {
    if s == "" then '\0' else s[0]
  }

  function UpToNul(s: string): string
  {
    if At(s) == '\0' then "" else [s[0]] + UpToNul(s[1..])
  }

  /** Letter case as `strcasecmp` ignores it. */
  function Lower(c: char): char
  {
    if 'A' <= c <= 'Z' then (c as int + 32) as char else c
  }

  /** Capital letters become small ones, and everything else stays. */
  lemma LowerIs(i: nat, c: char)
    ensures i < 26 ==> Lower("ABCDEFGHIJKLMNOPQRSTUVWXYZ"[i]) == "abcdefghijklmnopqrstuvwxyz"[i]
    ensures c !in "ABCDEFGHIJKLMNOPQRSTUVWXYZ" ==> Lower(c) == c
  {
    var caps := "ABCDEFGHIJKLMNOPQRSTUVWXYZ";
    assert forall k :: 0 <= k < 26 ==> caps[k] as int == 'A' as int + k;
    assert 'A' <= c <= 'Z' ==> caps[c as int - 'A' as int] == c;
  }

  lemma {:induction false} UpToNulLength(s: string)
    ensures |UpToNul(s)| <= |s| && '\0' !in UpToNul(s)
    decreases |s|
  {
    if At(s) != '\0' {
      UpToNulLength(s[1..]);
    }
  }

  lemma {:induction false} UpToNulPlain(w: string)
    requires '\0' !in w
    ensures UpToNul(w) == w
    decreases |w|
  {
    if w != "" {
      UpToNulPlain(w[1..]);
    }
  }

  /** Whatever follows the terminator is not part of the string. */
  lemma {:induction false} UpToNulTerminated(w: string, rest: string)
    requires '\0' !in w
    ensures UpToNul(w + ['\0'] + rest) == w
    decreases |w|
  {
    var s := w + ['\0'] + rest;
    if w != "" {
      assert s[1..] == w[1..] + ['\0'] + rest;
      UpToNulTerminated(w[1..], rest);
    }
  }
}

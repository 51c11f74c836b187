/**
The data-model merger: the second input without its last closing tags, then the first input
without its headers. Lines are what `fgets` returns into a buffer of 1024 bytes.
*/
module DataModelMerge {

  const CLOSE_MODEL := "</model>"
  const CLOSE_DOCUMENT := "</dm:document>"
  const XML_HEADER := "<?xml version=\"1.0\" encoding=\"UTF-8\"?>"
  const MODEL_TAG := "<model name=\"data-model\">"
  const BUFFER: nat := 1023

  // ----- lines -----

  predicate FoundAt(s: string, pat: string, i: nat)
  {
    i + |pat| <= |s| && s[i..i + |pat|] == pat
  }

  predicate Contains(s: string, pat: string)
  {
    exists i :: 0 <= i <= |s| && FoundAt(s, pat, i)
  }

  /** Characters up to and including a newline, the end, or a full buffer. */
  function LineLength(s: string, room: nat): (n: nat)
    requires s != "" && room > 0
    ensures 0 < n <= |s| && n <= room
  {
    if s[0] == '\n' || |s| == 1 || room == 1 then 1 else 1 + LineLength(s[1..], room - 1)
  }

  /** The results of `fgets` until the end of the file. */
  function Lines(s: string): (ls: seq<string>)
    ensures Concat(ls) == s
    decreases |s|
  {
    if s == "" then []
    else
      var n := LineLength(s, BUFFER);
      assert s[..n] + s[n..] == s;
      [s[..n]] + Lines(s[n..])
  }

  function Concat(ls: seq<string>): string
  {
    if ls == [] then "" else ls[0] + Concat(ls[1..])
  }

  lemma {:induction false} ConcatSplit(a: seq<string>, b: seq<string>)
    ensures Concat(a + b) == Concat(a) + Concat(b)
    decreases |a|
  {
    if a == [] {
      assert a + b == b;
    } else {
      assert (a + b)[0] == a[0] && (a + b)[1..] == a[1..] + b;
      ConcatSplit(a[1..], b);
      assert a[0] + (Concat(a[1..]) + Concat(b)) == a[0] + Concat(a[1..]) + Concat(b);
    }
  }

  // ----- specification of the merge -----

  predicate Header(l: string) { Contains(l, XML_HEADER) }

  /** The line that ends a skipped header; a line with both is a header. */
  predicate Resumes(l: string) { !Header(l) && Contains(l, MODEL_TAG) }

  /** Index of the last line that holds a tag, -1 if none does. */
  function LastHolding(ls: seq<string>, tag: string): (i: int)
    ensures -1 <= i < |ls|
    ensures i >= 0 ==> Contains(ls[i], tag)
    ensures forall j :: i < j < |ls| ==> !Contains(ls[j], tag)
  {
    if ls == [] then -1
    else if Contains(ls[|ls| - 1], tag) then |ls| - 1
    else LastHolding(ls[..|ls| - 1], tag)
  }

  /** Lines at the indices that a predicate keeps, in order. */
  ghost function Select(ls: seq<string>, keep: nat -> bool): seq<string>
  {
    if ls == [] then []
    else
      var n := |ls| - 1;
      Select(ls[..n], keep) + if keep(n) then [ls[n]] else []
  }

  /** A header at `h` and nothing that resumes after it and before `i`. */
  ghost predicate OpenSince(ls: seq<string>, h: nat, i: nat)
  {
    h < |ls| && i <= |ls| && Header(ls[h]) && forall j :: h < j < i ==> !Resumes(ls[j])
  }

  /** Between a header and the first resuming line after it, both included. */
  ghost predicate InSkipRange(ls: seq<string>, i: nat)
  {
    i < |ls| && exists h: nat :: h <= i && OpenSince(ls, h, i)
  }

  ghost function WithoutClosers(ls: seq<string>): seq<string>
  {
    var m, d := LastHolding(ls, CLOSE_MODEL), LastHolding(ls, CLOSE_DOCUMENT);
    Select(ls, (i: nat) => i != m && i != d)
  }

  ghost function WithoutHeaders(ls: seq<string>): seq<string>
  {
    Select(ls, (i: nat) => !InSkipRange(ls, i))
  }

  /** The merged file: input2 minus its last closers, then input1 outside every skip range. */
  ghost function Merged(input1: string, input2: string): string
  {
    Concat(WithoutClosers(Lines(input2))) + Concat(WithoutHeaders(Lines(input1)))
  }

  lemma {:induction false} SelectSame(ls: seq<string>, f: nat -> bool, g: nat -> bool)
    requires forall i: nat :: i < |ls| ==> f(i) == g(i)
    ensures Select(ls, f) == Select(ls, g)
    decreases |ls|
  {
    if ls != [] {
      SelectSame(ls[..|ls| - 1], f, g);
    }
  }

  /** Whether the state machine is skipping after these lines. */
  ghost predicate Skipping(ls: seq<string>)
  {
    exists h: nat :: h < |ls| && OpenSince(ls, h, |ls|)
  }

  lemma {:induction false} OpenPrefix(ls: seq<string>, n: nat, h: nat, i: nat)
    requires h < n <= |ls| && i <= n
    ensures OpenSince(ls[..n], h, i) <==> OpenSince(ls, h, i)
  {
    var t := ls[..n];
    assert t[h] == ls[h] && forall j :: h < j < i ==> t[j] == ls[j];
  }

  /** One step of the state machine: what it does with line `i` of a file. */
  lemma {:induction false} SkippingStep(ls: seq<string>, i: nat)
    requires i < |ls|
    ensures Skipping(ls[..i + 1]) <==> Header(ls[i]) || (Skipping(ls[..i]) && !Resumes(ls[i]))
    ensures InSkipRange(ls, i) <==> Header(ls[i]) || Skipping(ls[..i])
  {
    hide Header;
    hide Resumes;
    forall h: nat | h < i
      ensures OpenSince(ls[..i], h, i) <==> OpenSince(ls, h, i)
      ensures OpenSince(ls[..i + 1], h, i + 1) <==> OpenSince(ls, h, i) && !Resumes(ls[i])
    {
      OpenPrefix(ls, i, h, i);
      OpenPrefix(ls, i + 1, h, i + 1);
      if OpenSince(ls, h, i + 1) {
        assert !Resumes(ls[i]);
      }
    }
    OpenPrefix(ls, i + 1, i, i + 1);
    assert OpenSince(ls, i, i) <==> Header(ls[i]);
    assert OpenSince(ls, i, i + 1) <==> Header(ls[i]);
    var a, b := ls[..i], ls[..i + 1];
    assert |a| == i && |b| == i + 1;
    if Skipping(a) {
      var h: nat :| h < |a| && OpenSince(a, h, |a|);
      assert OpenSince(ls, h, i);
      if !Resumes(ls[i]) {
        assert OpenSince(b, h, |b|);
      }
    }
    if Header(ls[i]) {
      assert OpenSince(b, i, |b|) && OpenSince(ls, i, i);
    }
    if Skipping(b) {
      var h: nat :| h < |b| && OpenSince(b, h, |b|);
      assert h < i ==> OpenSince(a, h, |a|);
    }
    if InSkipRange(ls, i) {
      var h: nat :| h <= i && OpenSince(ls, h, i);
      assert h < i ==> OpenSince(a, h, |a|);
    }
  }

  lemma NotSkippingAtStart()
    ensures !Skipping([])
  {
  }

  // ----- the three loops -----

  method Positions(ls: seq<string>) returns (model: int, document: int)
    ensures model == LastHolding(ls, CLOSE_MODEL) && document == LastHolding(ls, CLOSE_DOCUMENT)
  {
    model, document := -1, -1;
    var pos := 0;
    while pos < |ls|
      invariant 0 <= pos <= |ls|
      invariant model == LastHolding(ls[..pos], CLOSE_MODEL)
      invariant document == LastHolding(ls[..pos], CLOSE_DOCUMENT)
    {
      assert ls[..pos + 1][..pos] == ls[..pos];
      if Contains(ls[pos], CLOSE_MODEL) {
        model := pos;
      }
      if Contains(ls[pos], CLOSE_DOCUMENT) {
        document := pos;
      }
      pos := pos + 1;
    }
    assert ls[..pos] == ls;
  }

  method CopyWithoutClosers(ls: seq<string>) returns (out: string)
    ensures out == Concat(WithoutClosers(ls))
  {
    var model, document := Positions(ls);
    ghost var keep := (i: nat) => i != model && i != document;
    out := "";
    var pos := 0;
    while pos < |ls|
      invariant 0 <= pos <= |ls|
      invariant out == Concat(Select(ls[..pos], keep))
    {
      assert ls[..pos + 1][..pos] == ls[..pos];
      ghost var done := Select(ls[..pos], keep);
      if (pos == model && Contains(ls[pos], CLOSE_MODEL)) || (pos == document && Contains(ls[pos], CLOSE_DOCUMENT)) {
        assert done + [] == done;
        pos := pos + 1;
        continue;
      }
      ConcatSplit(done, [ls[pos]]);
      assert Concat([ls[pos]]) == ls[pos] by { assert [ls[pos]][1..] == []; }
      out := out + ls[pos];
      pos := pos + 1;
    }
    assert ls[..pos] == ls;
    SelectSame(ls, keep, (i: nat) => i != LastHolding(ls, CLOSE_MODEL) && i != LastHolding(ls, CLOSE_DOCUMENT));
  }

  method CopyWithoutHeaders(ls: seq<string>, before: string) returns (out: string)
    ensures out == before + Concat(WithoutHeaders(ls))
  {
    hide Skipping;
    hide InSkipRange;
    hide Contains;
    out := before;
    ghost var keep := (i: nat) => !InSkipRange(ls, i);
    var skip := false;
    var i := 0;
    NotSkippingAtStart();
    assert ls[..0] == [];
    while i < |ls|
      invariant 0 <= i <= |ls|
      invariant skip <==> Skipping(ls[..i])
      invariant out == before + Concat(Select(ls[..i], keep))
    {
      var line := ls[i];
      ghost var done := Select(ls[..i], keep);
      assert ls[..i + 1] == ls[..i] + [line] && ls[..i + 1][..i] == ls[..i];
      SkippingStep(ls, i);
      assert done + [] == done;
      i := i + 1;
      if Contains(line, XML_HEADER) {
        skip := true;
        continue;
      }
      if skip && Contains(line, MODEL_TAG) {
        skip := false;
        continue;
      }
      if skip {
        continue;
      }
      ConcatSplit(done, [line]);
      assert Concat([line]) == line by { assert [line][1..] == []; }
      out := out + line;
    }
    assert ls[..i] == ls;
    SelectSame(ls, keep, (i: nat) => !InSkipRange(ls, i));
  }
}

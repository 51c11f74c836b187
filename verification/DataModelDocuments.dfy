/** Data-model documents: merging two gives a document, with one prologue, both bodies and one pair of closers. */
module DataModelDocuments {
  import opened DataModelMerge

  datatype Document = Document(prologue: seq<string>, body: seq<string>, closeModel: string, closeDocument: string)

  function Text(d: Document): seq<string>
  {
    d.prologue + d.body + [d.closeModel, d.closeDocument]
  }

  function Bytes(d: Document): string { Concat(Text(d)) }

  // ----- shape -----

  /** A line that fits the buffer and ends in its only newline. */
  predicate FullLine(l: string)
  {
    0 < |l| <= BUFFER && l[|l| - 1] == '\n' && forall i :: 0 <= i < |l| - 1 ==> l[i] != '\n'
  }

  /** The last line of a file may lack its newline. */
  predicate FinalLine(l: string)
  {
    FullLine(l) || (0 < |l| <= BUFFER && '\n' !in l)
  }

  /** From the XML declaration to the opening of the model. */
  predicate IsPrologue(ls: seq<string>)
  {
    && |ls| >= 2 && Header(ls[0]) && Resumes(ls[|ls| - 1])
    && (forall i :: 0 < i < |ls| - 1 ==> !Resumes(ls[i]))
    && (forall i :: 0 <= i < |ls| ==> FullLine(ls[i]))
  }

  predicate IsBody(ls: seq<string>)
  {
    forall i :: 0 <= i < |ls| ==> FullLine(ls[i]) && !Header(ls[i])
  }

  predicate IsDocument(d: Document)
  {
    && IsPrologue(d.prologue) && IsBody(d.body)
    && FullLine(d.closeModel) && !Header(d.closeModel) && Contains(d.closeModel, CLOSE_MODEL)
    && FinalLine(d.closeDocument) && !Header(d.closeDocument)
    && Contains(d.closeDocument, CLOSE_DOCUMENT) && !Contains(d.closeDocument, CLOSE_MODEL)
  }

  // ----- a document's bytes read back as its lines -----

  lemma {:induction false} FullLineLength(l: string, rest: string, room: nat)
    requires 0 < |l| <= room && l[|l| - 1] == '\n' && forall i :: 0 <= i < |l| - 1 ==> l[i] != '\n'
    ensures LineLength(l + rest, room) == |l|
    decreases |l|
  {
    if |l| > 1 {
      assert (l + rest)[1..] == l[1..] + rest;
      FullLineLength(l[1..], rest, room - 1);
    }
  }

  lemma {:induction false} LastLineLength(l: string, room: nat)
    requires 0 < |l| <= room && forall i :: 0 <= i < |l| ==> l[i] != '\n'
    ensures LineLength(l, room) == |l|
    decreases |l|
  {
    if |l| > 1 {
      LastLineLength(l[1..], room - 1);
    }
  }

  lemma {:induction false} LinesFirst(l: string, rest: string)
    requires FullLine(l)
    ensures Lines(l + rest) == [l] + Lines(rest)
  {
    FullLineLength(l, rest, BUFFER);
    assert (l + rest)[..|l|] == l && (l + rest)[|l|..] == rest;
  }

  lemma {:induction false} LinesLast(l: string)
    requires FinalLine(l)
    ensures Lines(l) == [l]
  {
    if FullLine(l) {
      LinesFirst(l, "");
      assert l + "" == l;
    } else {
      LastLineLength(l, BUFFER);
      assert l[..|l|] == l && l[|l|..] == "";
    }
  }

  lemma {:induction false} LinesOfConcat(ls: seq<string>)
    requires ls != [] && (forall i :: 0 <= i < |ls| - 1 ==> FullLine(ls[i])) && FinalLine(ls[|ls| - 1])
    ensures Lines(Concat(ls)) == ls
    decreases |ls|
  {
    hide Lines;
    hide FullLine;
    if |ls| == 1 {
      assert ls[1..] == [] && ls[0] + "" == ls[0];
      LinesLast(ls[0]);
    } else {
      LinesOfConcat(ls[1..]);
      LinesFirst(ls[0], Concat(ls[1..]));
    }
  }

  lemma {:induction false} DocumentLines(d: Document)
    requires IsDocument(d)
    ensures Lines(Bytes(d)) == Text(d)
  {
    hide FullLine;
    LinesOfConcat(Text(d));
  }

  // ----- what the merge keeps of a document -----

  lemma {:induction false} SelectPrefix(ls: seq<string>, keep: nat -> bool, n: nat)
    requires n <= |ls| && forall i: nat :: i < |ls| ==> (keep(i) <==> i < n)
    ensures Select(ls, keep) == ls[..n]
    decreases |ls|
  {
    if ls != [] {
      var k := |ls| - 1;
      if n <= k {
        SelectPrefix(ls[..k], keep, n);
        assert ls[..k][..n] == ls[..n];
      } else {
        SelectPrefix(ls[..k], keep, k);
        assert ls[..k][..k] + [ls[k]] == ls[..n];
      }
    }
  }

  lemma {:induction false} SelectSuffix(ls: seq<string>, keep: nat -> bool, n: nat)
    requires n <= |ls| && forall i: nat :: i < |ls| ==> (keep(i) <==> n <= i)
    ensures Select(ls, keep) == ls[n..]
    decreases |ls|
  {
    if ls != [] {
      var k := |ls| - 1;
      if n <= k {
        SelectSuffix(ls[..k], keep, n);
        assert ls[..k][n..] + [ls[k]] == ls[n..];
      } else {
        SelectSuffix(ls[..k], keep, k);
        assert ls[..k][k..] == [] && ls[n..] == [];
      }
    }
  }

  lemma {:induction false} LastHoldingIs(ls: seq<string>, tag: string, i: nat)
    requires i < |ls| && Contains(ls[i], tag) && forall j :: i < j < |ls| ==> !Contains(ls[j], tag)
    ensures LastHolding(ls, tag) == i
  {
    hide Contains;
  }

  lemma {:induction false} ClosersDropped(d: Document)
    requires IsDocument(d)
    ensures WithoutClosers(Text(d)) == d.prologue + d.body
  {
    hide Contains;
    var ls := Text(d);
    var n := |ls| - 2;
    assert ls[n] == d.closeModel && ls[n + 1] == d.closeDocument;
    LastHoldingIs(ls, CLOSE_MODEL, n);
    LastHoldingIs(ls, CLOSE_DOCUMENT, n + 1);
    var keep := (i: nat) => i != LastHolding(ls, CLOSE_MODEL) && i != LastHolding(ls, CLOSE_DOCUMENT);
    SelectPrefix(ls, keep, n);
    WithoutClosersIs(ls, keep);
    assert ls[..n] == d.prologue + d.body;
  }

  lemma {:induction false} WithoutClosersIs(ls: seq<string>, keep: nat -> bool)
    requires forall i: nat :: keep(i) <==> i != LastHolding(ls, CLOSE_MODEL) && i != LastHolding(ls, CLOSE_DOCUMENT)
    ensures WithoutClosers(ls) == Select(ls, keep)
  {
    var m, d := LastHolding(ls, CLOSE_MODEL), LastHolding(ls, CLOSE_DOCUMENT);
    SelectSame(ls, (i: nat) => i != m && i != d, keep);
  }

  lemma {:induction false} HeaderDropped(d: Document)
    requires IsDocument(d)
    ensures WithoutHeaders(Text(d)) == d.body + [d.closeModel, d.closeDocument]
  {
    var ls, p := Text(d), |d.prologue|;
    var keep := (i: nat) => !InSkipRange(ls, i);
    forall i: nat | i < |ls|
      ensures keep(i) <==> p <= i
    {
      OnlyPrologueSkipped(d, i);
    }
    SelectSuffix(ls, keep, p);
    SelectSame(ls, (i: nat) => !InSkipRange(ls, i), keep);
    assert ls[p..] == d.body + [d.closeModel, d.closeDocument];
  }

  lemma {:induction false} OnlyPrologueSkipped(d: Document, i: nat)
    requires IsDocument(d) && i < |Text(d)|
    ensures InSkipRange(Text(d), i) <==> i < |d.prologue|
  {
    hide Contains;
    hide FullLine;
    var ls, p := Text(d), |d.prologue|;
    assert forall j :: 0 <= j < p ==> ls[j] == d.prologue[j];
    assert ls[p - 1] == d.prologue[p - 1];
    assert i < p ==> OpenSince(ls, 0, i);
    if i >= p {
      forall h: nat | h <= i
        ensures !OpenSince(ls, h, i)
      {
        if h < p - 1 {
          assert Resumes(ls[p - 1]);
        } else if h >= p {
          assert ls[h] in d.body || ls[h] == d.closeModel || ls[h] == d.closeDocument;
          assert !Header(ls[h]);
        } else {
          assert !Header(ls[p - 1]);
        }
      }
    }
  }

  // ----- merging documents -----

  /** The second input's prologue, its body then the first's, and the first's closers. */
  function Join(first: Document, second: Document): Document
  {
    Document(second.prologue, second.body + first.body, first.closeModel, first.closeDocument)
  }

  /** Documents are closed under the merge, which concatenates their bodies. */
  lemma {:induction false} MergeIsJoin(first: Document, second: Document)
    requires IsDocument(first) && IsDocument(second)
    ensures Merged(Bytes(first), Bytes(second)) == Bytes(Join(first, second))
    ensures IsDocument(Join(first, second))
  {
    hide WithoutClosers;
    hide WithoutHeaders;
    hide Lines;
    hide FullLine;
    hide Contains;
    DocumentLines(first);
    DocumentLines(second);
    ClosersDropped(second);
    HeaderDropped(first);
    var a, b := second.prologue + second.body, first.body + [first.closeModel, first.closeDocument];
    ConcatSplit(a, b);
    assert a + b == Text(Join(first, second));
  }

  /** Three files in two merges: associative, and one document with the three bodies in order. */
  lemma {:induction false} MergeAssociates(a: Document, b: Document, c: Document)
    requires IsDocument(a) && IsDocument(b) && IsDocument(c)
    ensures Merged(Bytes(c), Merged(Bytes(b), Bytes(a))) == Merged(Merged(Bytes(c), Bytes(b)), Bytes(a))
    ensures Merged(Bytes(c), Merged(Bytes(b), Bytes(a))) ==
            Bytes(Document(a.prologue, a.body + b.body + c.body, c.closeModel, c.closeDocument))
  {
    hide Merged;
    hide IsDocument;
    hide Bytes;
    MergeIsJoin(b, a);
    MergeIsJoin(c, Join(b, a));
    MergeIsJoin(c, b);
    MergeIsJoin(Join(c, b), a);
    assert a.body + (b.body + c.body) == a.body + b.body + c.body;
  }

  // ----- the tags -----

  lemma {:induction false} StartsWithTag(line: string, tag: string)
    requires tag <= line
    ensures Contains(line, tag)
  {
    assert FoundAt(line, tag, 0);
  }

  /** The lines that the program's files start and end with are a prologue and closers. */
  lemma {:induction false} TagsAreThese()
    ensures Contains("<?xml version=\"1.0\" encoding=\"UTF-8\"?>", XML_HEADER)
    ensures Contains("<model name=\"data-model\">", MODEL_TAG)
    ensures Contains("</model>", CLOSE_MODEL) && Contains("</dm:document>", CLOSE_DOCUMENT)
    ensures |XML_HEADER| == 38 && |MODEL_TAG| == 25 && |CLOSE_MODEL| == 8 && |CLOSE_DOCUMENT| == 14
  {
    StartsWithTag(XML_HEADER, XML_HEADER);
    StartsWithTag(MODEL_TAG, MODEL_TAG);
    StartsWithTag(CLOSE_MODEL, CLOSE_MODEL);
    StartsWithTag(CLOSE_DOCUMENT, CLOSE_DOCUMENT);
  }

  /** A line longer than the buffer is read in pieces of 1023 characters. */
  lemma {:induction false} LongLine(s: string)
    requires |s| > 1023 && forall i :: 0 <= i < 1023 ==> s[i] != '\n'
    ensures Lines(s) == [s[..1023]] + Lines(s[1023..])
  {
    RoomIsUsed(s, 1023);
  }

  lemma {:induction false} RoomIsUsed(s: string, room: nat)
    requires 0 < room < |s| && forall i :: 0 <= i < room ==> s[i] != '\n'
    ensures LineLength(s, room) == room
    decreases room
  {
    if room > 1 {
      RoomIsUsed(s[1..], room - 1);
    }
  }
}

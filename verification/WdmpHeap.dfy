/** The C heap as the request codec uses it: numbered blocks, 0 for NULL. */
module WdmpHeap {

  type Ptr = nat
  type Blocks = map<Ptr, string>

  /** The pointers of blocks allocated one after another. */
  function Range(from: nat, to: nat): (r: seq<Ptr>)
    requires from <= to
    ensures |r| == to - from && forall i :: 0 <= i < |r| ==> r[i] == from + i
  {
    seq(to - from, i => from + i)
  }

  lemma RangeSplit(a: nat, b: nat, c: nat)
    requires a <= b <= c
    ensures Range(a, c) == Range(a, b) + Range(b, c)
  {
  }

  ghost predicate NoRepeats(ps: seq<Ptr>) { forall i, j :: 0 <= i < j < |ps| ==> ps[i] != ps[j] }

  /** Blocks that may be released in this order: each is allocated and none comes twice. */
  ghost predicate Owned(blocks: Blocks, ps: seq<Ptr>)
  {
    NoRepeats(ps) && forall i :: 0 <= i < |ps| ==> ps[i] in blocks
  }

  ghost function Without(blocks: Blocks, ps: seq<Ptr>): Blocks
  {
    map p | p in blocks && p !in ps :: blocks[p]
  }

  lemma {:induction false} ReleaseFirst(blocks: Blocks, p: Ptr, rest: seq<Ptr>)
    requires Owned(blocks, [p] + rest)
    ensures p in blocks && Owned(blocks - {p}, rest)
    ensures Without(blocks - {p}, rest) == Without(blocks, [p] + rest)
  {
    var all := [p] + rest;
    assert all[0] == p && forall i :: 0 <= i < |rest| ==> all[i + 1] == rest[i];
  }

  class Heap {
    var blocks: Blocks
    var next: Ptr

    ghost predicate Valid()
      reads this
    {
      next > 0 && forall p :: p in blocks ==> 0 < p < next
    }

    constructor ()
      ensures Valid() && blocks == map[]
    {
      blocks, next := map[], 1;
    }

    /** `malloc`, or `strdup` of a text. */
    method Alloc(text: string) returns (p: Ptr)
      requires Valid()
      modifies this
      ensures Valid() && p == old(next) && next == p + 1 && blocks == old(blocks)[p := text]
    {
      p := next;
      blocks := blocks[p := text];
      next := next + 1;
    }

    /** `free`: of NULL, or of a block that is allocated. */
    method Free(p: Ptr)
      requires Valid() && (p == 0 || p in blocks)
      modifies this
      ensures Valid() && next == old(next) && blocks == old(blocks) - {p}
    {
      blocks := blocks - {p};
    }
  }

  /** Later allocations leave earlier blocks as they are. */
  ghost predicate Extends(a: Blocks, b: Blocks)
  {
    forall p :: p in a ==> p in b && b[p] == a[p]
  }
}

/**
Redirects of a task. The source keeps them in a doubly linked list that grows at its head
and is applied from its tail; the specification is a left-to-right fold of the operations
as written (section 2.7 of the POSIX.1-2017 Shell Command Language: redirections take
effect from beginning to end).
*/
module Redirects {
  import opened ShellSyntax
  import opened Descriptors

  /** Whether `open` of a path in a mode succeeds; the file system is not modelled further. */
  type Opens = (string, Mode) -> bool

  /** The effect of one operation as the shell language describes it. */
  function Effect(t: FdTable, op: FdOp, opens: Opens): (r: (FdTable, bool))
  {
    match op
    case Close(fd) => (if fd >= 0 then t - {fd as nat} else t, true)
    case Dup2(src, fd) =>
      if src >= 0 && src as nat in t && fd >= 0 then (t[fd as nat := t[src as nat]], true) else (t, false)
    case Open(fd, path, mode) =>
      if opens(path, mode) && fd >= 0 then (t[fd as nat := Opened(path, mode)], true) else (t, false)
  }

  /** The operations from left to right, stopping at the first that fails. */
  function Fold(t: FdTable, ops: seq<FdOp>, opens: Opens): (r: (FdTable, bool))
    decreases |ops|
  {
    if ops == [] then (t, true)
    else
      var (t1, ok) := Effect(t, ops[0], opens);
      if ok then Fold(t1, ops[1..], opens) else (t1, false)
  }

  lemma {:induction false} FoldSplit(t: FdTable, a: seq<FdOp>, b: seq<FdOp>, opens: Opens)
    ensures var (u, ok) := Fold(t, a, opens);
            Fold(t, a + b, opens) == if ok then Fold(u, b, opens) else (u, false)
    decreases |a|
  {
    if a == [] {
      assert a + b == b;
    } else {
      assert (a + b)[0] == a[0] && (a + b)[1..] == a[1..] + b;
      FoldSplit(Effect(t, a[0], opens).0, a[1..], b, opens);
    }
  }

  lemma {:induction false} FoldTwo(t: FdTable, a: FdOp, b: FdOp, opens: Opens)
    ensures var (u, ok) := Effect(t, a, opens);
            Fold(t, [a, b], opens) == if ok then Effect(u, b, opens) else (u, false)
  {
    var u := Effect(t, a, opens).0;
    assert [a, b][1..] == [b] && [b][1..] == [];
    assert Fold(u, [b], opens) == Effect(u, b, opens);
  }

  /**
  What `&>&m` is read as overwrites m, with descriptor 2 or, for 2 itself, with 1. The language
  has `>&m 2>&m`, which needs m to be open and overwrites 1 and 2 with it. In every table: the
  same if and only if all three are open and equal, or both fail at once, 1 and m being closed.
  */
  lemma {:induction false} BothToFdOverwrites(t: FdTable, m: nat, opens: Opens)
    ensures var read := Fold(t, [Dup2(1, m), Dup2(2, m)], opens);
            var meant := Fold(t, [Dup2(m, 1), Dup2(m, 2)], opens);
            && (1 in t && 2 in t ==> read == (t[m := if m == 2 then t[1] else t[2]], true))
            && (read == meant <==>
                (1 in t && 2 in t && m in t && t[1] == t[2] == t[m]) || (1 !in t && m !in t))
  {
    FoldTwo(t, Dup2(1, m), Dup2(2, m), opens);
    FoldTwo(t, Dup2(m, 1), Dup2(m, 2), opens);
    hide Fold;
    if 1 in t && 2 in t {
      var read := t[m := if m == 2 then t[1] else t[2]];
      assert t[m := t[1]][m := t[2]] == t[m := t[2]];
      assert m == 2 ==> t[m := t[1]][m := t[1]] == t[m := t[1]];
      if m in t {
        var meant := t[1 := t[m]][2 := t[m]];
        assert t[1 := t[m]][m] == t[m];
        assert Fold(t, [Dup2(m, 1), Dup2(m, 2)], opens) == (meant, true);
        assert read == meant ==> read[1] == meant[1] && read[2] == meant[2];
        assert t[1] == t[2] == t[m] ==> read == t && meant == t;
      }
    } else if 1 in t {
      assert m in t[m := t[1]];
      assert m !in t ==> t[m := t[1]] != t;
    }
  }

  class Node {
    var next: Node?
    var prev: Node?
    const op: FdOp
    constructor (op: FdOp, next: Node?)
      ensures this.op == op && this.next == next && prev == null
    {
      this.op := op;
      this.next := next;
      this.prev := null;
    }
  }

  /** The operations held by nodes in list order, most recent first, read back as written. */
  ghost function AsWritten(nodes: seq<Node>): (ops: seq<FdOp>)
    ensures |ops| == |nodes|
  {
    if nodes == [] then [] else AsWritten(nodes[1..]) + [nodes[0].op]
  }

  lemma {:induction false} AsWrittenAt(nodes: seq<Node>, k: nat)
    requires k < |nodes|
    ensures AsWritten(nodes)[|nodes| - 1 - k] == nodes[k].op
  {
    if k > 0 {
      AsWrittenAt(nodes[1..], k - 1);
    }
  }

  /** The `fd_ops` field of a task. */
  class OpList {
    var head: Node?
    ghost var nodes: seq<Node>

    ghost predicate Valid()
      reads this, nodes
    {
      && (head == null <==> nodes == [])
      && (nodes != [] ==> head == nodes[0])
      && (forall i, j :: 0 <= i < j < |nodes| ==> nodes[i] != nodes[j])
      && (nodes != [] ==> nodes[0].prev == null && nodes[|nodes| - 1].next == null)
      && (forall i {:trigger nodes[i].next} :: 0 <= i < |nodes| - 1 ==> nodes[i].next == nodes[i + 1])
      && (forall i {:trigger nodes[i].prev} :: 1 <= i < |nodes| ==> nodes[i].prev == nodes[i - 1])
    }

    ghost function Ops(): seq<FdOp>
      reads this
    {
      AsWritten(nodes)
    }

    constructor ()
      ensures Valid() && Ops() == [] && fresh(nodes)
    {
      head := null;
      nodes := [];
    }

    /** The three `fd_ops_add*` functions differ only in the operation they store. */
    method Add(op: FdOp)
      requires Valid()
      modifies this, nodes
      ensures Valid() && fresh(set n | n in nodes && n !in old(nodes))
      ensures Ops() == old(Ops()) + [op]
    {
      var n := new Node(op, head);
      if head != null {
        head.prev := n;
      }
      head := n;
      nodes := [n] + nodes;
      assert nodes[1..] == old(nodes);
    }

    method ApplyOp(op: FdOp, t: FdTable, opens: Opens) returns (r: FdTable, ok: bool)
      ensures (r, ok) == Effect(t, op, opens)
    {
      r, ok := t, true;
      match op
      case Close(fd) =>
        r := CloseCall(r, fd);
      case Dup2(src, fd) =>
        var d := Dup2Call(r, src, fd);
        r, ok := d.0, d.1;
      case Open(fd, path, mode) =>
        if !opens(path, mode) {
          ok := false;
        } else {
          var newFd := LowestFree(r);
          r := r[newFd := Opened(path, mode)];
          if newFd != fd {
            var d := Dup2Call(r, newFd, fd);
            r, ok := CloseCall(d.0, newFd), d.1;
            assert r == Effect(t, op, opens).0;
          }
        }
    }

    /** Walk to the tail, then back to the head, applying each operation on the way. */
    method Apply(t: FdTable, opens: Opens) returns (r: FdTable, ok: bool)
      requires Valid()
      ensures (r, ok) == Fold(t, Ops(), opens)
    {
      r, ok := t, true;
      if head == null {
        return;
      }
      var op := head;
      ghost var k := 0;
      while op.next != null
        invariant 0 <= k < |nodes| && op == nodes[k]
        decreases |nodes| - k
      {
        op := op.next;
        k := k + 1;
      }
      var cur: Node? := op;
      k := |nodes|;
      while cur != null
        invariant 0 <= k <= |nodes|
        invariant cur == if k == 0 then null else nodes[k - 1]
        invariant ok && (r, ok) == Fold(t, Ops()[..|nodes| - k], opens)
        decreases k
      {
        ghost var done := |nodes| - k;
        AsWrittenAt(nodes, k - 1);
        assert Ops()[..done + 1] == Ops()[..done] + [cur.op];
        FoldSplit(t, Ops()[..done], [cur.op], opens);
        FoldSplit(t, Ops()[..done + 1], Ops()[done + 1..], opens);
        assert Ops() == Ops()[..done + 1] + Ops()[done + 1..];
        r, ok := ApplyOp(cur.op, r, opens);
        if !ok {
          return;
        }
        cur := cur.prev;
        k := k - 1;
      }
      assert Ops()[..|nodes|] == Ops();
    }
  }
}

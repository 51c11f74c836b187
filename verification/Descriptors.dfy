/**
A process's descriptor table: a map from open descriptors to what they refer to, with the
kernel's rule that a new descriptor is the lowest one free.
*/
module Descriptors {
  import opened ShellSyntax

  datatype File =
    | Inherited(n: nat)
    | PipeRead(id: nat)
    | PipeWrite(id: nat)
    | Opened(path: string, mode: Mode)

  type FdTable = map<nat, File>

  function FreeFrom(open: set<nat>, n: nat): (fd: nat)
    requires forall k: nat :: k < n ==> k in open
    ensures n <= fd && fd !in open
    ensures forall k: nat :: k < fd ==> k in open
    decreases |open| - n
  {
    InitialSegment(open, n);
    if n in open then
      InitialSegment(open, n + 1);
      FreeFrom(open, n + 1)
    else n
  }

  lemma InitialSegment(s: set<nat>, n: nat)
    requires forall k: nat :: k < n ==> k in s
    ensures n <= |s|
  {
    if n > 0 {
      InitialSegment(s - {n - 1}, n - 1);
    }
  }

  /** The lowest descriptor that is not open. */
  function LowestOutside(open: set<nat>): (fd: nat)
    ensures fd !in open
    ensures forall k: nat :: k < fd ==> k in open
  {
    FreeFrom(open, 0)
  }

  /** The descriptor that the next `dup`, `pipe` or `open` returns. */
  function LowestFree(t: FdTable): (fd: nat)
    ensures fd !in t
    ensures forall k: nat :: k < fd ==> k in t
  {
    LowestOutside(t.Keys)
  }

  /** `dup2(src, dst)`: the new table, or the old one when the call fails. */
  function Dup2Call(t: FdTable, src: int, dst: int): (r: (FdTable, bool))
  {
    if src >= 0 && src as nat in t && dst >= 0 then (t[dst as nat := t[src as nat]], true)
    else (t, false)
  }

  function CloseCall(t: FdTable, fd: int): FdTable
  {
    if fd >= 0 then t - {fd as nat} else t
  }

  /** `dup(fd)`: -1 and no change when `fd` is not open. */
  function DupCall(t: FdTable, fd: nat): (r: (FdTable, int))
  {
    if fd in t then (t[LowestFree(t) := t[fd]], LowestFree(t)) else (t, -1)
  }

  /** `pipe`: the read end and then the write end, each at the lowest free descriptor. */
  function PipeCall(t: FdTable, id: nat): (r: (FdTable, nat, nat))
  {
    var rd := LowestFree(t);
    var t1 := t[rd := PipeRead(id)];
    var wr := LowestFree(t1);
    (t1[wr := PipeWrite(id)], rd, wr)
  }
}

/**
The task tree that the mini shell's parser builds and its executor walks.
*/
module ShellSyntax {

  const MAX_ARG_LEN: nat := 1024
  const MAX_NUM_ARGS: nat := 512
  const MAX_NUM_CMDS: nat := 32

  /** What ends a command: `;`, `&`, `|`, `&&` or `||`. */
  datatype Token = Semicolon | Background | Pipe | And | Or

  /** How a redirect opens its file: `<`, `>` or `>>`. */
  datatype Mode = Read | Truncate | Append

  /** One descriptor operation of a task, in the order written. */
  datatype FdOp =
    | Close(fd: int)
    | Dup2(src: int, fd: int)
    | Open(fd: int, path: string, mode: Mode)

  /**
  An entry of argv. `text` is what the program receives; `format` is the piece of the
  format string it came from and `at` the position of the variadic arguments when it was
  expanded. The last two are kept only so that properties can speak of them.
  */
  datatype Word = Word(format: string, at: nat, text: string)

  datatype Shell = NoShell | Shell(tasks: seq<Task>)

  datatype Task = Task(argv: seq<Word>, sub: Shell, ops: seq<FdOp>, token: Token)

  /** A close is always of descriptor 2 and at once followed by the copy of 1 to 2. */
  ghost predicate PairedCloses(ops: seq<FdOp>)
    decreases |ops|
  {
    ops == [] ||
    if ops[0].Close? then ops[0].fd == 2 && |ops| > 1 && ops[1] == Dup2(1, 2) && PairedCloses(ops[2..])
    else PairedCloses(ops[1..])
  }

  /** Every descriptor that the operations name, as source or target, is one of `known`. */
  predicate NamesOnly(ops: seq<FdOp>, known: set<nat>)
  {
    forall op :: op in ops ==>
      (op.fd >= 0 ==> op.fd as nat in known) && (op.Dup2? && op.src >= 0 ==> op.src as nat in known)
  }

  /** No operation names one of `hidden`, as source or target. */
  predicate Avoids(ops: seq<FdOp>, hidden: set<nat>)
  {
    forall op :: op in ops ==> op.fd !in hidden && (op.Dup2? ==> op.src !in hidden)
  }

  /** The descriptors that the operations open or overwrite. */
  function Targets(ops: seq<FdOp>): set<nat>
  {
    set op | op in ops && op.fd >= 0 :: op.fd as nat
  }

  lemma {:induction false} PairedClosesSplit(a: seq<FdOp>, b: seq<FdOp>)
    requires PairedCloses(a) && PairedCloses(b)
    ensures PairedCloses(a + b)
    decreases |a|
  {
    if a == [] {
      assert a + b == b;
    } else if a[0].Close? {
      PairedClosesSplit(a[2..], b);
      assert (a + b)[2..] == a[2..] + b;
    } else {
      PairedClosesSplit(a[1..], b);
      assert (a + b)[1..] == a[1..] + b;
    }
  }

  lemma Associate<T>(a: seq<T>, b: seq<T>, c: seq<T>)
    ensures a + b + c == a + (b + c)
  {
  }
}

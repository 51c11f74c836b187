/** What can be observed of a run of the shell, and what decides the outcome of its calls. */
module ShellWorld {
  import opened ShellSyntax
  import opened Descriptors
  import Redirects

  /** A program started with its arguments and its descriptor table. */
  datatype Event = Exec(argv: seq<string>, fds: FdTable)

  /** Programs started so far, in order, and the number of pipes created. */
  datatype World = World(trace: seq<Event>, pipes: nat)

  /**
  What the model does not decide: the status `waitpid` reports for the last program of a
  trace (-1 when it was killed), and which files can be opened after a trace.
  */
  datatype Oracle = Oracle(exit: seq<Event> -> int, opens: seq<Event> -> Redirects.Opens)

  /** What a program is started with: the text of each word in its place. */
  function Texts(ws: seq<Word>): (r: seq<string>)
    ensures |r| == |ws| && forall i :: 0 <= i < |ws| ==> r[i] == ws[i].text
  {
    if ws == [] then [] else [ws[0].text] + Texts(ws[1..])
  }
}

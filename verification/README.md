# Verified model of tr69hostif

A Dafny model of the parts of tr69hostif that hold state, recursion or a format, with proofs
about them: the mini shell behind `v_secure_system` and `v_secure_popen`, the data-model
merger, the INI store, the WDMP request codec, the typed parameter envelope, the path matcher,
the table-change events and the shutdown protocol. `dafny verify dfyconfig.toml` checks it all.

## What is modelled

**Mini shell, parsing** (`ShellSyntax`, `ShellParser*`, `ShellPrinter`, `ShellTargets`,
`ShellReading`, `ShellSources`, `ShellExpansion`, `ShellOddities`). The parser is modelled twice: `ShellParser.Run` on the unread
text, and `ShellParserLoop.CommandParser`, the loop with its index, proved equal to it. A ghost
reading runs beside it and records where each word stood in the text.

**Mini shell, execution** (`Descriptors`, `Redirects`, `ShellWorld`, `ShellExecutor`,
`ShellGrammar`, `ShellControl`, `ShellWiring`, `ShellReference`, `ShellRefinement`,
`ShellSystem`, `ShellPrograms`). The executor is the loop with its skip counter and the `dup`/`dup2`/`close`/`pipe`
calls on a descriptor table in which a new descriptor is the lowest one free. It is compared with
`ShellReference.Evaluate`, a structured evaluator written from sections 2.7 (Redirection), 2.8.2
(Exit Status), 2.9.2 (Pipelines) and 2.9.3 (Lists) of the POSIX.1-2017 Shell Command Language. That
module imports nothing of the executor: no skip counter, no rewiring, a command whose redirect
fails is not run, and an AND-OR list ended by `&` has status 0 whatever it runs. Exit statuses and
the success of `open` come from an oracle that sees every program started so far, so a result holds
for all of them. A run is called regular when the redirects of every program it reaches succeed and, wherever the status of a list
is read, that list is not empty and, if its status comes from a subshell ended by `&` or a final
`|`, or from what is left of an AND-OR list ended by `&` whose last command is skipped, it is 0.
Redirects of subshells may fail. Lists are compared on regular runs, single stages on all.

**Stream registry** (`PopenRegistry`, `Mutex`). The linked list under its mutex, and every
interleaving of threads that make pipes, fork, register, call `fdopen` outside the mutex, search,
close and unlink, with the descriptor table on which a new child runs its command.

**Data-model merger** (`DataModelMerge`, `DataModelDocuments`, `DataModelFiles`). Files are byte
strings read as `fgets` reads them into 1024 bytes. The two RDKV stages are composed.

**INI store** (`IniStore`, `IniFiles`). A dictionary with write-through to a disk, over any
history of calls, with the outcome of each open given by the history.

**WDMP codec** (`WdmpHeap`, `WdmpRequests`, `WdmpCodec`, `WdmpParser`). Numbered heap blocks;
`Heap.Free` requires its block to be allocated, so a double release would not verify.

**Envelope and paths** (`Envelope`, `PathMatch`, `Decimal`, `CStrings`), **events**
(`TableEvents`), **shutdown** (`Shutdown`).

## Where the code departs from what a reader expects

- A word after a redirect operator is its target if and only if no part of it is quoted
  (`ShellTargets.TargetIsRedirectIff`). With a quote in it, `cmd >'f'` or `cmd >f'g'`, the text is
  read as if the operator were not there (`QuotedTargetIsArgument`), unless another redirect
  operator is reached at the same level, even in a later command: then the whole is refused
  (`QuotedTargetDropped`, `LaterRedirectFails`).
- An operator without a word, `a > ;b c`, is no error; whatever the separator, the redirect falls to
  the next command of the list, with its first plain word as the file (`ShellTargets.EmptyTargetMovesOn`,
  `NextWordIsTarget`). At the end of the text or of a subshell it disappears (`EmptyTargetAtEnd`).
- `(a)(b)` drops the first subshell (`ShellSources.SecondSubshellReplaces`). The tree has all words
  that were read if and only if no subshell with words in it is replaced (`ReadingOrder`).
- `&>&m` is read the wrong way round: it overwrites `m` with descriptor 2 (2 with 1) where the
  language overwrites 1 and 2 with `m`. The two agree if and only if all three are open and equal,
  or 1 and `m` are closed and both fail (`Redirects.BothToFdOverwrites`).
- A `*` width or precision takes an argument that the parser does not count, so the next word starts
  with one already used (`ShellSources.StarIsNotCounted`). For conversions that the C library
  defines the count is right if and only if there are as many `%m` as `*` (`CountIsRightIff`).
- A subshell that is not closed is read as if it were, and what follows a parenthesis that closes
  nothing is not read (`ShellOddities.UnclosedSubshell`, `TextAfterParen`).
- A separator with no command before it ends the next command after its first word: `; a b` is read
  as `a ; b` (`ShellOddities.LeadingSeparatorSplits`). A second one is refused, unless it is `;`
  (`SecondSeparator`).
- Inside a pipeline the loop keeps up to three descriptors for itself; which ones follows from what
  the caller has open and the place of the stage (`ShellWiring.WireMeaning`, `HiddenAt`). A redirect
  of one of them is lost (`ShellSystem.RedirectLost`, `cmd 3>f | x`), and a redirect from one copies
  the pipe itself where the language has it fail (`HiddenSourceRead`, `cmd >&3 | x`). Redirects do
  what the language says if and only if they succeed and name none of these as target or source
  (`ShellWiring.HiddenIff`, `ShellRefinement.ProgramAgreesIff`).
- A program is started even when its redirects fail, and it sees the loop's own descriptors exactly
  then (`ShellRefinement.ProgramStarts`, `LeaksIffFailed`; `ShellSystem.FailedRedirectRuns`,
  `FailedRedirectLeaks`). A subshell is run exactly when they succeed, and its status is otherwise
  255 (`SubshellStarts`, `FailedSubshell`).
- A subshell ended by `&` or `|` is waited for, and its status stands where the language has 0
  (`ShellSystem.BackgroundSubshellStatus`); for the stage this shows exactly when that status is not
  0 (`ShellRefinement.SubshellAgreesIff`), and for a list only if its status is read.
- An AND-OR list ended by `&` keeps the status of its left side when its last command is skipped
  after `&&`, where the language has 0 (`ShellSystem.SkippedBackground`); so `(a && b &) && c` with a
  failing `a` does not run `c` (`SkippedBackgroundStops`). This and a subshell's own status are the
  only ways in which such a list has another status than 0 (`ShellControl.BackgroundStatusIff`).
- A text without commands gives 255 instead of 0 (`ShellSystem.NothingToRun`).
- The child of `v_secure_popen` closes every registered descriptor but keeps both ends of the pipes
  that other threads have made and not yet registered (`PopenRegistry.ChildHolds`).
- None of these need show in the end: in `cmd >f || cmd` with an open that fails the system starts
  the first `cmd` and the language the second, with one result (`ShellSystem.TwoWrongsAgree`).
- When `fdopen` fails after a stream was registered its entry stays: with no call in progress the
  registry is the streams in use if and only if that has never happened
  (`PopenRegistry.RegistryIsStreamsIff`).
- `setValue` leaves file and memory different exactly when the key or value cannot be represented
  in a line, or when the file cannot be opened and the value is new (`IniFiles.SetKeepsSync`).
- An unsigned long between 2^31 and 2^64 - 2^31 does not come back from `getStringValue`, since
  `get_ulong` returns an int (`Envelope.LongIdentity`); an int of ten or more characters overflows
  the text buffer (`Envelope.IntegerIdentity`).
- `exit_gracefully` does not test its flag again under the mutex. With the single shutdown thread
  it tears down at most once; with two it can do so twice (`Shutdown.TearsDownOnceIffOneThread`).

## Model

| member | source | states |
|---|---|---|
| Redirects.OpList.Add | src/unittest/stubs/secure_wrapper.c:142-180 | prepending keeps next and prev inverse to each other and appends the operation to the list as written |
| Redirects.OpList.ApplyOp | src/unittest/stubs/secure_wrapper.c:192-217 | one operation has the effect the shell language gives it, whichever descriptor the open returned |
| Redirects.OpList.Apply | src/unittest/stubs/secure_wrapper.c:182-221 | the walk from tail to head equals a left-to-right fold of the operations as written, stopping at the first failure |
| ShellExecutor.ExecuteTask | src/unittest/stubs/secure_wrapper.c:619-707 | the status and the programs started are those of the specification, for every close list and oracle |
| ShellExecutor.ExecuteTaskList | src/unittest/stubs/secure_wrapper.c:709-788 | the loop with its skip counter, kept in {0,1}, computes the fold of the specification's steps over the first 32 tasks |
| ShellGrammar.Group | src/unittest/stubs/secure_wrapper.c:709-788 | every task list is the flattening of a script of AND-OR lists of pipelines |
| Redirects.BothToFdOverwrites | src/unittest/stubs/secure_wrapper.c:494-496 | the operations of `&>&m` overwrite m with 2, or 2 with 1; in every table they do what `>&m 2>&m` does if and only if 1, 2 and m are open and equal, or 1 and m are closed and both fail |
| ShellControl.PipelineSkipped | src/unittest/stubs/secure_wrapper.c:765-783 | a pipeline met while skipping is skipped as a whole and changes only the counter |
| ShellControl.AndOrRuns | src/unittest/stubs/secure_wrapper.c:770-783 | on an AND-OR list the counter gives left-associative evaluation with equal precedence |
| ShellControl.LoopIsStructured | src/unittest/stubs/secure_wrapper.c:709-788 | for every list, oracle, table and state with skip 0, the loop is the structured run of the list's script, stage by stage |
| ShellControl.LoopHeads | src/unittest/stubs/secure_wrapper.c:712-784 | at every loop head skip is 0 or 1 and nothing is pending while skipping; nothing is pending after a list not ended by a pipe |
| ShellControl.BackgroundStatusIff | src/unittest/stubs/secure_wrapper.c:765-783 | for every AND-OR list ended by `&`: the loop's status is not 0 exactly when the last pipeline is skipped after `&&`, or ends in a subshell whose status is not 0 |
| ShellWiring.WireMeaning | src/unittest/stubs/secure_wrapper.c:717-749 | the exact table of the caller while a stage runs, and the numbers of the saved and pending descriptors, from what was open and the place of the stage |
| ShellWiring.UnwireMeaning | src/unittest/stubs/secure_wrapper.c:753-763 | after a stage the caller's table is as at entry plus the read end of a new pipe, if any |
| ShellWiring.CallerTable | src/unittest/stubs/secure_wrapper.c:712-784 | every iteration of any list leaves the caller's descriptors as at entry plus at most one pending read end |
| ShellWiring.HandOver | src/unittest/stubs/secure_wrapper.c:720-749 | the task after a piped stage always runs, with descriptor 0 the read end of the pipe its predecessor had as descriptor 1 |
| ShellWiring.FoldHides | src/unittest/stubs/secure_wrapper.c:638-642 | redirects that name no hidden descriptor neither see nor change any, whatever else they name |
| ShellWiring.FoldKeys | src/unittest/stubs/secure_wrapper.c:182-221 | redirects that succeed leave open exactly what was open and their targets |
| ShellWiring.HiddenIff | src/unittest/stubs/secure_wrapper.c:669-674 | redirects give what they would without the hidden descriptors if and only if they succeed and name none of them, as target or as source |
| ShellRefinement.ProgramStarts | src/unittest/stubs/secure_wrapper.c:665-704 | for every program: started whether or not its redirects succeeded, on success with what they leave less the hidden descriptors, else with all that is open |
| ShellRefinement.SubshellStarts | src/unittest/stubs/secure_wrapper.c:632-663 | a subshell runs exactly when its redirects succeeded; otherwise status 255 and nothing started |
| ShellRefinement.LeaksIffFailed | src/unittest/stubs/secure_wrapper.c:669-676 | a program sees all the loop's own descriptors if a redirect failed, and none if not |
| ShellRefinement.ProgramAgreesIff | src/unittest/stubs/secure_wrapper.c:665-704 | a program stage starts what the language says if and only if its redirects succeed and name nothing hidden; its status then agrees too |
| ShellRefinement.SubshellAgreesIff | src/unittest/stubs/secure_wrapper.c:632-663 | a subshell stage whose list agrees does so if and only if its redirects succeed and it is not one ended by `&` or `|` with a status other than 0 |
| ShellRefinement.SubshellFollows | src/unittest/stubs/secure_wrapper.c:632-663 | a subshell stage whose list agrees up to 255 for 1 does so, even if its redirects fail, and whatever its status if nothing reads that |
| ShellRefinement.FlatRunIsScript | src/unittest/stubs/secure_wrapper.c:709-788 | for every list within limits and every regular run whose reached redirects avoid the hidden descriptors: same programs, order and descriptors as the structured evaluator, the caller's table back, and if read the same status, up to 255 for the 1 of a failed redirect |
| ShellRefinement.ClearScriptAvoids | src/unittest/stubs/secure_wrapper.c:717-749 | reached redirects avoid the hidden descriptors in every run of a list in which none names one, by the caller's open descriptors and the place of each stage |
| ShellRefinement.KnownIsClear | src/unittest/stubs/secure_wrapper.c:717-749 | and none does when those of pipelines name only descriptors open in the caller or opened by an enclosing subshell; a command alone may name any |
| ShellParserLoop.CopyQuoted | src/unittest/stubs/secure_wrapper.c:337-347 | copies exactly the quoted characters, or more than a word may hold |
| ShellParserLoop.ReadQuote | src/unittest/stubs/secure_wrapper.c:326-358 | the quotation case, with its two failures |
| ShellParserLoop.ReadTarget | src/unittest/stubs/secure_wrapper.c:484-509 | a copied descriptor at once, or a file name to come |
| ShellParserLoop.ReadRedirect | src/unittest/stubs/secure_wrapper.c:451-509 | the redirect case: descriptor, operator and target |
| ShellParserLoop.ReadNext | src/unittest/stubs/secure_wrapper.c:291-516 | the switch for every character but the opening parenthesis |
| ShellParserLoop.CommandParser | src/unittest/stubs/secure_wrapper.c:248-615 | the loop ends, by unread characters and then the pending word, and returns the specification's result for every format and arguments |
| ShellParserLoop.RestIsSuffix | src/unittest/stubs/secure_wrapper.c:307-313 | what a parse leaves unread is the tail of its text, so bytes consumed locate it |
| ShellParserProps.RunGood | src/unittest/stubs/secure_wrapper.c:273-289 | the loop keeps the limits, the expansion of each word from its format and the pairing of closes |
| ShellParserProps.ParsedTreesAreGood | src/unittest/stubs/secure_wrapper.c:248-615 | at most 32 tasks, each a command of 1 to 512 words or a subshell, to any depth; every word is the expansion of its own format word |
| ShellExpansion.ExpandParts | src/unittest/stubs/secure_wrapper.c:224-241 | for every format made of texts and conversions: the texts and the renderings, in order, each conversion with the arguments after those of the ones before, one for each `*` and one for itself unless it is `%m` |
| ShellExpansion.ExpandBetween | src/unittest/stubs/secure_wrapper.c:224-241 | a conversion between two texts is rendered between them |
| ShellExpansion.ExpansionIsParts | src/unittest/stubs/secure_wrapper.c:224-241 | every format whose conversions are defined is made of such parts, so this gives the text of every such word |
| ShellParserProps.RunAlike | src/unittest/stubs/secure_wrapper.c:519-597 | from states that differ only in the texts of words, two argument lists lead to results that do too |
| ShellParserProps.ArgumentsKeepStructure | src/unittest/stubs/secure_wrapper.c:224-615 | any two argument lists give the same tree but for word texts and read the same text, or fail alike, or one fails for a long argument or a redirect to a variable |
| ShellPrinter.ExpandEscape | src/unittest/stubs/secure_wrapper.c:224-241 | expansion undoes escaping and takes no argument |
| ShellPrinter.FileParses | src/unittest/stubs/secure_wrapper.c:475-509 | an operator and an unquoted name are read as a pending redirect to that file |
| ShellPrinter.ListParses | src/unittest/stubs/secure_wrapper.c:300-321 | a printed list, at top level or in a subshell, is read back up to its end |
| ShellPrinter.ParsePrint | src/unittest/stubs/secure_wrapper.c:248-615 | parsing undoes printing for every list within limits: arbitrary words, redirects, nesting and separators |
| ShellTargets.TargetParses | src/unittest/stubs/secure_wrapper.c:475-509 | an operator, blanks and any word of plain and quoted pieces: the word is collected in the mode its quotes give, whatever follows |
| ShellTargets.TargetIsRedirectIff | src/unittest/stubs/secure_wrapper.c:519-590 | when a literal word after an operator ends, it is a redirect if and only if it has no quote; otherwise one more argument, with the operator still set |
| ShellTargets.OperatorEndsWord | src/unittest/stubs/secure_wrapper.c:458-466 | an operator right after a word that is no number: the word is an argument, as if a blank came between |
| ShellTargets.LeftoverRun | src/unittest/stubs/secure_wrapper.c:451-455 | for every text: with an operator left over, parsing fails if and only if it reaches another at this level, and is otherwise unchanged |
| ShellTargets.QuotedTargetDropped | src/unittest/stubs/secure_wrapper.c:326-358 | for every quoted target and whatever follows: the parse of the text without the operator, or failure if another operator is reached |
| ShellTargets.QuotedTargetIsArgument | src/unittest/stubs/secure_wrapper.c:355-358 | a command and a quoted target are two arguments and no redirect |
| ShellTargets.LaterRedirectFails | src/unittest/stubs/secure_wrapper.c:451-455 | a quoted target and a redirect of a later command are refused |
| ShellTargets.EmptyTargetMovesOn | src/unittest/stubs/secure_wrapper.c:508-597 | a redirect without a word before any separator: the command is complete without it and the parser waits on in the next |
| ShellTargets.NextWordIsTarget | src/unittest/stubs/secure_wrapper.c:519-590 | the first plain word of that command becomes the file |
| ShellTargets.EmptyTargetAtEnd | src/unittest/stubs/secure_wrapper.c:508-598 | before the end of the text or of a subshell the redirect disappears |
| ShellOddities.VariableTarget | src/unittest/stubs/secure_wrapper.c:555-559 | a redirect to a plain word is refused if and only if its arguments change it |
| ShellOddities.HereDocument | src/unittest/stubs/secure_wrapper.c:568-574 | `<<` and a word are refused |
| ShellOddities.UnclosedSubshell | src/unittest/stubs/secure_wrapper.c:300-314 | for any list that prints something, an opening parenthesis and the list are read as the closed subshell |
| ShellOddities.TextAfterParen | src/unittest/stubs/secure_wrapper.c:315-319 | a parenthesis that closes nothing ends the list and the rest is left unread |
| ShellOddities.LeadingSeparatorSplits | src/unittest/stubs/secure_wrapper.c:592-597 | a separator with no command before it ends the next command after its first word |
| ShellOddities.SecondSeparator | src/unittest/stubs/secure_wrapper.c:420-444 | a second separator before any word is refused, unless it is `;`, which replaces the first |
| ShellReading.ItemsSound | src/unittest/stubs/secure_wrapper.c:326-358 | every word taken stands in the text and its format is that piece without its quotes; a target has none |
| ShellReading.ItemsPlaced | src/unittest/stubs/secure_wrapper.c:248-615 | the pieces of any two words do not overlap, and those of arguments are in the order of the text |
| ShellReading.ItemsChained | src/unittest/stubs/secure_wrapper.c:519-530 | over words, redirect targets and subshells each word starts with the argument after those counted for the word before, from the start of a parse to its end |
| ShellSources.ReadingOrder | src/unittest/stubs/secure_wrapper.c:300-314 | the words of the tree are words read, in reading order, and all of them but targets if and only if no subshell with words is replaced by a second |
| ShellSources.SecondSubshellReplaces | src/unittest/stubs/secure_wrapper.c:300-314 | for any two lists, `(a)(b)` is read as `(b)` |
| ShellSources.ExpandIsLocal | src/unittest/stubs/secure_wrapper.c:224-241 | the text of a word depends on its own arguments only |
| ShellSources.CountIsRightIff | src/unittest/stubs/secure_wrapper.c:224-241 | for defined conversions the count that advances the argument list is the number of arguments used if and only if there are as many `%m` as `*`; too low exactly with more `*` |
| ShellSources.StarIsNotCounted | src/unittest/stubs/secure_wrapper.c:229-238 | `%*d` uses two arguments and is counted once |
| ShellSources.WordsComeFromText | src/unittest/stubs/secure_wrapper.c:248-615 | for every format that parses: words are disjoint pieces of it without their quotes, start with the argument after those counted before, and stand in the tree in the order of the text, all of them if and only if no subshell with words is replaced |
| ShellSystem.SystemRunsTheScript | src/unittest/stubs/secure_wrapper.c:806-851 | for every format and arguments that parse and every regular run whose reached redirects avoid the hidden descriptors, the script the text denotes is what runs, the result is the low byte of its status, and the bound of 32 drops nothing |
| ShellSystem.ClearListRuns | src/unittest/stubs/secure_wrapper.c:806-851 | in particular in every regular run of a list whose redirects avoid them wherever they stand |
| ShellSystem.KnownRedirectsRun | src/unittest/stubs/secure_wrapper.c:806-851 | and when the redirects of pipelines name only descriptors already open, those of lone commands any |
| ShellSystem.PlainHides | src/unittest/stubs/secure_wrapper.c:717-749 | with only 0, 1 and 2 open, a first stage hides 3 and 5, a middle one 3, 4 and 6, a last one 4 |
| ShellSystem.RedirectLost | src/unittest/stubs/secure_wrapper.c:669-674 | `cmd 3>f` before a pipe starts without descriptor 3, which the language has open |
| ShellSystem.HiddenSourceRead | src/unittest/stubs/secure_wrapper.c:732-748 | `cmd >&3` before a pipe starts with the read end of its own pipe as output, where the language has the redirect fail |
| ShellSystem.FailedRedirectRuns | src/unittest/stubs/secure_wrapper.c:669-676 | `cmd >f` with an open that fails is started on the caller's table; the language runs nothing |
| ShellSystem.FailedRedirectLeaks | src/unittest/stubs/secure_wrapper.c:669-676 | `cmd >f` before a pipe, with an open that fails, starts with 3 and 5 open |
| ShellSystem.FailedSubshell | src/unittest/stubs/secure_wrapper.c:632-663 | `(...) >f` with an open that fails: nothing runs in either, status 255 against 1 |
| ShellSystem.BackgroundSubshellStatus | src/unittest/stubs/secure_wrapper.c:632-663 | `(cmd) &` returns the status of `cmd`; the language has 0 |
| ShellSystem.SkippedBackground | src/unittest/stubs/secure_wrapper.c:765-783 | `a` and then `b &` joined by `&&`, with a failing a: the status is that of a; the language has 0 |
| ShellSystem.SkippedBackgroundStops | src/unittest/stubs/secure_wrapper.c:765-783 | that list as a subshell, followed by `&&` and c: the language runs c and the loop does not |
| ShellSystem.NothingToRun | src/unittest/stubs/secure_wrapper.c:806-851 | a text without commands gives 255 and runs nothing; the language has 0 |
| ShellSystem.TwoWrongsAgree | src/unittest/stubs/secure_wrapper.c:669-676 | `cmd >f` or else `cmd`, with an open that fails: the stages differ and the runs agree, so agreement of every stage is not necessary for that of a run |
| ShellPrograms.RedirsFold | src/unittest/stubs/secure_wrapper.c:182-221 | for every table and printed redirects: they succeed exactly when each is possible, and then leave what they mean from left to right |
| ShellPrograms.CommandRuns | src/unittest/stubs/secure_wrapper.c:806-851 | from text to process: any printed words and possible redirects start one program with exactly those words, on the table the redirects mean, and its status is returned |
| ShellPrograms.PipeRuns | src/unittest/stubs/secure_wrapper.c:806-851 | two printed commands and a pipe start both, joined by its ends, and return the status of the second |
| ShellPrograms.RefusedRunsNothing | src/unittest/stubs/secure_wrapper.c:806-851 | a negative result is exactly a text that does not parse, and then nothing is started |
| PopenRegistry.Registry.Push | src/unittest/stubs/secure_wrapper.c:959-966 | the new entry is first and the list stays acyclic |
| PopenRegistry.Registry.Search | src/unittest/stubs/secure_wrapper.c:868-875 | stops at the first entry for the descriptor, or at the end |
| PopenRegistry.Registry.Detach | src/unittest/stubs/secure_wrapper.c:899-901 | removes that node and no other |
| PopenRegistry.Registry.Unlink | src/unittest/stubs/secure_wrapper.c:866-904 | the process recorded at open and the list without that entry, or failure and the list unchanged |
| PopenRegistry.Registry.CloseInChild | src/unittest/stubs/secure_wrapper.c:947-949 | closes the descriptor of every entry and no other |
| PopenRegistry.EnterChild | src/unittest/stubs/secure_wrapper.c:942-949 | the calls of the child give the table of the specification |
| PopenRegistry.EveryState | src/unittest/stubs/secure_wrapper.c:857-975 | in every state of every interleaving descriptors are claimed once, the mutex has one holder, the registry is what is recorded plus the one being closed, and each record is in use, on its way or lost |
| PopenRegistry.ChildHolds | src/unittest/stubs/secure_wrapper.c:938-951 | in every state of every interleaving the child has the caller's table with its standard descriptor the pipe, less both pipe ends and every registered descriptor, and still the pipes that other threads are making |
| PopenRegistry.RegistryIsRecorded | src/unittest/stubs/secure_wrapper.c:866-968 | with no stream half closed the registry is exactly what is recorded, each once; a close finds exactly streams in use and waits for the process recorded with them, or changes nothing |
| PopenRegistry.RegistryIsStreamsIff | src/unittest/stubs/secure_wrapper.c:959-968 | with no call in progress the registry is exactly the streams in use if and only if `fdopen` has never failed |
| DataModelMerge.Lines | src/hostif/src/hostIf_main.cpp:764-769 | the lines read, joined, are the file |
| DataModelDocuments.LongLine | src/hostif/src/hostIf_main.cpp:764-769 | a line longer than the buffer is read in pieces of 1023 characters |
| DataModelMerge.Positions | src/hostif/src/hostIf_main.cpp:767-779 | the positions of the last line with each closing tag |
| DataModelMerge.CopyWithoutClosers | src/hostif/src/hostIf_main.cpp:780-790 | the input in order without those two lines |
| DataModelMerge.SkippingStep | src/hostif/src/hostIf_main.cpp:792-803 | the flag after a line is set exactly when an open header range contains it |
| DataModelMerge.CopyWithoutHeaders | src/hostif/src/hostIf_main.cpp:791-805 | exactly the lines outside every header-to-model range, in order |
| DataModelDocuments.DocumentLines | src/hostif/src/hostIf_main.cpp:764-769 | a document's bytes are read back as its lines |
| DataModelDocuments.ClosersDropped | src/hostif/src/hostIf_main.cpp:769-790 | of a document, prologue and body are kept |
| DataModelDocuments.HeaderDropped | src/hostif/src/hostIf_main.cpp:791-805 | of a document, body and closers are kept |
| DataModelDocuments.MergeIsJoin | src/hostif/src/hostIf_main.cpp:752-814 | documents are closed under the merge: second prologue, second body then first, one pair of closers |
| DataModelDocuments.MergeAssociates | src/hostif/src/hostIf_main.cpp:682-722 | merging three documents is associative and concatenates their bodies |
| DataModelFiles.FileSystem.FilterAndMerge | src/hostif/src/hostIf_main.cpp:752-814 | the merged output, or failure with the output truncated if it could be opened and nothing changed if not |
| DataModelFiles.FileSystem.MergeRdkv | src/hostif/src/hostIf_main.cpp:682-722 | the files and status of the two-stage merge |
| DataModelFiles.FileSystem.MergeRdke | src/hostif/src/hostIf_main.cpp:724-750 | the files and status of the one-stage merge, and failure for other profiles |
| DataModelFiles.RdkvBuildsOneDocument | src/hostif/src/hostIf_main.cpp:682-722 | for TV and for STB: one document with the bodies of base, generic and that profile's own file in order, other files untouched |
| DataModelFiles.RdkvDefault | src/hostif/src/hostIf_main.cpp:711-718 | for any other profile: base then generic, and the intermediate file is gone |
| DataModelFiles.RdkvStatus | src/hostif/src/hostIf_main.cpp:690-721 | success if and only if all inputs exist and both outputs can be written |
| DataModelFiles.RdkeBuildsOneDocument | src/hostif/src/hostIf_main.cpp:729-749 | for TV and for STB: one document with the bodies of that profile's own file and generic in order |
| DataModelFiles.RdkeRefuses | src/hostif/src/hostIf_main.cpp:742-749 | any other profile fails and changes nothing |
| IniStore.LoadIsClean | src/hostif/src/IniFile.cpp:47-55 | whatever the file, no loaded key has `=` or a newline and no value a newline |
| IniStore.LinesAre | src/hostif/src/IniFile.cpp:47-55 | the lines of a file are what its newlines end, and what follows the last of them, if anything |
| IniStore.LoadLookup | src/hostif/src/IniFile.cpp:47-55 | a key is loaded exactly when some line has it, with the last such line's value |
| IniStore.LoadText | src/hostif/src/IniFile.cpp:47-106 | loading what was flushed gives the dictionary back if and only if its keys and values fit on a line |
| IniStore.Normalised | src/hostif/src/IniFile.cpp:47-106 | for any file, load, flush, load gives the same dictionary and a second flush the same bytes |
| IniFiles.SetKeepsSync | src/hostif/src/IniFile.cpp:76-86 | exactly when a set leaves file and memory agreeing |
| IniFiles.ClearKeepsSync | src/hostif/src/IniFile.cpp:60-64 | a clear does so if and only if the file opens or there was nothing to clear |
| IniFiles.HistoryInSync | src/hostif/src/IniFile.cpp:31-106 | after any orderly history the file parses to exactly the dictionary |
| IniFiles.HistoryDecides | src/hostif/src/IniFile.cpp:31-106 | for every history of loads of any files, sets and clears with clean keys and values, whichever writes succeed, every file and key: memory and disk are what the history alone says |
| IniFiles.ReopenReturnsLastGiven | src/hostif/src/IniFile.cpp:31-106 | after any orderly history of any files, reopening one returns the value last given to every key while it was in use, or what it held first, or none |
| IniFiles.StripQuotes | src/hostif/src/IniFile.cpp:35-36 | the name without its quotes |
| IniFiles.QuotesRemoved | src/hostif/src/IniFile.cpp:35-36 | quotes go and nothing else, wherever they stand |
| IniFiles.ReadDict | src/hostif/src/IniFile.cpp:47-55 | the loop over lines loads the dictionary of the whole file |
| IniFiles.IniFile.LoadFile | src/hostif/src/IniFile.cpp:31-58 | quotes are removed from the name, the dictionary is the file's, and the result says whether it exists |
| IniFiles.IniFile.Set | src/hostif/src/IniFile.cpp:76-86 | updates the dictionary and writes it through, or refuses without a file name |
| IniFiles.IniFile.Clear | src/hostif/src/IniFile.cpp:60-64 | empties the dictionary and writes it through |
| IniFiles.IniFile.Flush | src/hostif/src/IniFile.cpp:89-106 | rewrites the file with one line per key, in key order |
| IniStore.BelowIff | src/hostif/src/IniFile.cpp:89-106 | keys come in the order of their first differing character, a prefix first |
| IniStore.OneEntry | src/hostif/src/IniFile.cpp:98-100 | an entry is its key, `=`, its value and a newline |
| WdmpRequests.FreePermutesAlloc | src/unittest/stubs/wdmp-c.c:232-337 | for every structure the blocks released are the blocks allocated, with multiplicity |
| WdmpRequests.AllocatedIsOwned | src/unittest/stubs/wdmp-c.c:232-337 | blocks got one after another can be released in the other order, each once, leaving exactly the rest |
| WdmpCodec.CopyNames | src/unittest/stubs/wdmp_internal.c:68-72 | every name copied in order into new blocks |
| WdmpCodec.CopyFields | src/unittest/stubs/wdmp_internal.c:118-152 | every parameter's name, value and type stored, in new blocks, with NULL where there is no value |
| WdmpCodec.CopyRows | src/unittest/stubs/wdmp_internal.c:308-326 | every cell of every row stored, in new blocks |
| WdmpCodec.ReleaseItems | src/unittest/stubs/wdmp-c.c:259-263 | releases names and values, each once |
| WdmpCodec.ReleaseRows | src/unittest/stubs/wdmp-c.c:316-325 | releases cells and arrays of every row, each once |
| WdmpCodec.FreeRequest | src/unittest/stubs/wdmp-c.c:232-337 | by the request type, releases exactly the structure's blocks; no release is of a block not allocated |
| WdmpParser.BuildGet | src/unittest/stubs/wdmp_internal.c:50-72 | the names of a GET |
| WdmpParser.BuildSet | src/unittest/stubs/wdmp_internal.c:94-204 | the parameters of a SET or SET_ATTRIBUTES |
| WdmpParser.BuildTest | src/unittest/stubs/wdmp_internal.c:206-283 | the identifiers, with their stand-ins, and optional parameters of a TEST_AND_SET |
| WdmpParser.BuildTable | src/unittest/stubs/wdmp_internal.c:285-377 | the table name and rows of the three table commands |
| WdmpRequests.HeldIsStored | src/unittest/stubs/wdmp_internal.c:50-377 | what a structure holds, in terms of the payload alone: every name, every value or NULL, every type or its default, identifiers with their stand-ins, the cells of every row and the request type |
| WdmpParser.ParseRequest | src/unittest/stubs/wdmp-c.c:52-150 | a structure that stores the whole payload in new blocks, with a body that fits its request type, or NULL with nothing left allocated |
| WdmpParser.ParseThenFree | src/unittest/stubs/wdmp-c.c:52-337 | parsing and releasing leaves the heap exactly as it was |
| PathMatch.MatchIsDecomposition | src/hostif/src/hostIf_utils.cpp:96-123 | a match is exactly a decomposition into key, short dot-free number and setting, which is unique |
| PathMatch.MatchUndoesPath | src/hostif/src/hostIf_utils.cpp:96-123 | matching undoes path building for any key and setting, if and only if the instance has at most nine digits |
| PathMatch.NestedPath | src/hostif/handlers/src/hostIf_IPClient_ReqHandler.cpp:166-197 | nested instances are recovered one after the other |
| Decimal.StrtolReads | src/hostif/src/hostIf_utils.cpp:96-123 | blanks, a sign, digits and a rest are read as that number, saturated at 64 bits, up to the rest |
| Envelope.DecodeEncode | src/hostif/src/hostIf_utils.cpp:147-196 | reading a stored number gives it back |
| Envelope.StoredInteger | src/hostif/src/hostIf_utils.cpp:153-157 | an int is stored as its four bytes in two's complement, least significant first, and the rest is cleared |
| Envelope.StoredUnsigned | src/hostif/src/hostIf_utils.cpp:165-189 | an unsigned int or long is stored as its four or eight bytes, least significant first |
| Envelope.StoredBoolean | src/hostif/src/hostIf_utils.cpp:192-196 | a boolean is stored as one byte, 1 or 0 |
| Envelope.Message.PutValue | src/hostif/src/hostIf_utils.cpp:255-289 | the buffer is cleared and then starts with the bytes of the value |
| Envelope.NormalIsIdempotent | src/hostif/src/hostIf_utils.cpp:235-289 | for every type and text, what comes back comes back again unchanged |
| Envelope.StringIdentity | src/hostif/src/hostIf_utils.cpp:238-271 | a string comes back if and only if it is shorter than the buffer |
| Envelope.IntegerIdentity | src/hostif/src/hostIf_utils.cpp:125-131 | an int comes back if its text has at most nine characters, and overflows otherwise |
| Envelope.UnsignedIdentity | src/hostif/src/hostIf_utils.cpp:215-220 | an unsigned value comes back modulo 2^32 |
| Envelope.StrtoulReads | src/hostif/src/hostIf_utils.cpp:215-227 | blanks, a sign, digits and a rest: the number, modulo 2^64 if negative, saturated if too large |
| Envelope.BooleanIdentity | src/hostif/src/hostIf_utils.cpp:198-233 | both truth values come back |
| Envelope.BooleanIs | src/hostif/src/hostIf_utils.cpp:229-233 | exactly `1` and `true` in any letter case are true |
| Envelope.LongIdentity | src/hostif/src/hostIf_utils.cpp:173-183 | an unsigned long comes back if and only if it is below 2^31 or within 2^31 of 2^64 |
| TableEvents.RemovalsAre | src/hostif/handlers/src/hostIf_DHCPv4Client_ReqHandler.cpp:284-291 | a smaller count gives one removal for each index from the new count up to the old one |
| TableEvents.AdditionsAre | src/hostif/handlers/src/hostIf_DHCPv4Client_ReqHandler.cpp:292-299 | a larger count gives one addition per new entry |
| TableEvents.SendChanges | src/hostif/handlers/src/hostIf_DHCPv4Client_ReqHandler.cpp:281-299 | the two loops send exactly those events |
| TableEvents.PollReports | src/hostif/handlers/src/hostIf_DHCPv4Client_ReqHandler.cpp:279-301 | a poll saves the count it reads and reports the difference, removals from the new count up or additions; a getter that fails changes nothing |
| TableEvents.EventsConserved | src/hostif/handlers/src/hostIf_DHCPv4Client_ReqHandler.cpp:51-301 | over any polls and resets additions minus removals since the last reset equal the saved count, table by table |
| TableEvents.TablesIndependent | src/hostif/handlers/src/hostIf_MoCAClient_ReqHandler.cpp:742-784 | polling one table changes neither the count nor the balance of another |
| TableEvents.Dhcpv4Handler.ResetCounts | src/hostif/handlers/src/hostIf_DHCPv4Client_ReqHandler.cpp:51-56 | the count returns to zero |
| TableEvents.Dhcpv4Handler.CheckForUpdates | src/hostif/handlers/src/hostIf_DHCPv4Client_ReqHandler.cpp:279-301 | the count becomes the one read, and the log grows by exactly the events of the difference; neither changes if the getter fails |
| TableEvents.MocaHandler.ResetCounts | src/hostif/handlers/src/hostIf_MoCAClient_ReqHandler.cpp:58-64 | both counts return to zero |
| TableEvents.MocaHandler.CheckForUpdates | src/hostif/handlers/src/hostIf_MoCAClient_ReqHandler.cpp:742-784 | the same for the device table and then for the mesh table |
| Shutdown.ShutdownIsSafe | src/hostif/src/hostIf_main.cpp:151-645 | in every reachable state the semaphore is posts minus completed waits, tear-down follows a posted signal, and its thread alone holds the mutex |
| Shutdown.OneThreadTearsDownOnce | src/hostif/src/hostIf_main.cpp:590-645 | with one thread the actions done are a prefix of the eleven in their order, each once, and the mutex is free at the end |
| Shutdown.TwoThreadsTearDownTwice | src/hostif/src/hostIf_main.cpp:592-597 | a run of two threads that tears down twice |
| Shutdown.TearsDownOnceIffOneThread | src/hostif/src/hostIf_main.cpp:590-645 | tearing down at most once holds for every run if and only if there is at most one thread |

## Left out

- Command substitution with backquotes outside quotes: its result depends on the output of a child, and the model reports it as an error of its own.
- Real processes, signals and the C library: exit statuses, opens and the rendering of one printf conversion are parameters; positional conversions (`%1$d`), floating-point arguments, which are not passed as machine words, conversions that C leaves undefined and a negative result of `vsnprintf` are not modelled.
- Failures of `malloc`, `dup`, `pipe` and `fork` in the shell executor, and limits on the number of descriptors.
- Allocation of tasks and of argv in the parser: tasks are values there; the linked list of redirects is modelled on its own in `Redirects`.
- Standard input of an AND-OR list ended by `&`: a non-interactive shell gives it `/dev/null` (section 2.9.3), and the evaluator and the code keep the caller's.
- A program killed by a signal has status -1 in loop and evaluator alike; the language has one above 128.
- `&` and `|` start commands concurrently; the trace records the order in which they are started, and that of a subshell ended by `&` is taken to come before what follows, which is one of the orders the language allows.
- SystemRunsTheScript: asks that the run be regular and that reached redirects avoid the descriptors hidden in their place. The condition is exact for every stage (`ProgramAgreesIff`, `SubshellAgreesIff`) and cannot be for a run, as `TwoWrongsAgree` shows.
- NUL bytes inside data-model files, and merges whose output is one of their inputs: the program's file names are distinct constants.
- JSON parsing, payload types other than TR-181, non-string members where a string is required, `malloc` returning NULL, response formation and `getStatusCode`.
- `paramLen` of a message, and what happens beyond the ten bytes when an int's text overflows them.
- Events when no callback is registered, and the value-change events that are not compiled by default.
- The getters and setters of single parameters, the Ethernet, InterfaceStack and Device handlers, RFC and bootstrap stores, Thunder, IARM, RBUS and Parodus: one branch per parameter, or calls into other programs.

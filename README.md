# cli-apps: the decision logic of six small command-line tools, in Dafny

The repository is a set of small Go command-line tools. Each tool is mostly
input and output around a small piece of sequential logic. This project models
those pieces and proves what they promise:

- **goci** (a CI pipeline runner). A pipeline step runs one external command and
  turns the outcome into a success message or a `stepErr`. The model covers the
  `stepErr` record, its `Error`, `Is` and `Unwrap` methods, and the sentinels
  (`goci_errors.dfy`). It also covers the plain step (`goci_steps.dfy`) and the
  step with a time budget, whose zero timeout defaults to 30 seconds and whose
  failures are classified as time-outs or ordinary failures
  (`goci_timeout_step.dfy`). The process launch is a function parameter: from
  the command line (and time budget) to the run's error (and whether the
  deadline expired).
- **todo**. The `List` of items is a class whose `items` sequence `Add`,
  `Complete` and `Delete` update in place. `String` and `PrintIncomplete` render
  it as text (`todo_list.dfy`). `getTask` gathers the tasks from the arguments
  or from the non-blank input lines (`todo_task.dfy`).
- **word counter**. `count` reads the input one newline-terminated segment at a
  time and counts lines, words and bytes (`word_counter.dfy`).
- **walk** (a file walker). `filterOut`, `filepath.Ext` and `listFile` are in
  `walk_actions.dfy`. The repeatable `-ext` flag (`multiFlag.Set`) and the
  per-entry dispatch of the walk callback are in `walk_main.dfy`.
- **colstat** (column statistics). `run` checks its arguments in order and
  concatenates the data of all files, stopping at the first failure
  (`colstat.dfy`).
- **mdp** (a markdown previewer). `preview` chooses the program that opens a
  file on each operating system (`mdp_preview.dfy`).

`text.dfy` holds the pieces of Go's standard library that several tools rely on:
- `unicode.IsSpace` and `strings.TrimSpace`;
- `%d` rendering, with its read-back;
- splitting newline-terminated text into lines.

`wrappers.dfy` holds `Option` and `Result`.

Where the sources disagree with each other, or a literal looks like a slip,
the model keeps what the code does.
- The plain step's failure reason is spelled "falied to execute", as
  goci-cli/steps.go writes it. The timed step's reason is "failed to execute".
  Both literals are kept.
- The "no tasks" error of `getTask` ends in a tab character, as written.
- `filterOut` takes one extension string, as walk-cli/actions.go declares it.
  The walk callback in walk-cli/mian.go passes the `exts` slice of the
  configuration to it, which does not type-check. The model's configuration
  carries the single extension that `filterOut` takes.

## Model

| member | source | states |
|---|---|---|
| GociErrors.StepErr.Error | goci-cli/erros.go:19-21 | the message is `Step: ` and the quoted step name, which reads back as exactly the step, followed by `: <msg>: Cause: <cause> ` (the cause rendered by `%v`, `<nil>` when absent); it ends in a space |
| GociErrors.StepErr.Is | goci-cli/erros.go:23-29 | a target matches exactly when it is a `*stepErr` whose message names this step |
| GociErrors.StepErr.Unwrap | goci-cli/erros.go:31-33 | the result is the next link of the chain `errors.Is` walks: the cause's chain follows the step error, and nil ends the chain |
| GociErrors.SentinelsDistinct | goci-cli/erros.go:14-17 | ErrValidation and ErrSignal are different errors, with messages "Validation failed" and "Recive signal" |
| GociErrors.IsIgnoresMsgAndCause | goci-cli/erros.go:23-29 | `Is` matches every `*stepErr` of the same step, whatever its msg and cause |
| GociErrors.IsRejectsOtherErrors | goci-cli/erros.go:24-27 | `Is` is false for any error that is not a `*stepErr`, the sentinels included |
| GociErrors.IsEquivalence | goci-cli/erros.go:28 | on `*stepErr` values `Is` holds exactly when the step names are equal; it is reflexive, symmetric and transitive |
| GociErrors.UnwrapExposesCause | goci-cli/erros.go:31-33 | whatever the cause is (by `errors.Is`), the step error is too, through `Unwrap` |
| GociErrors.ErrorsIsChain | goci-cli/erros.go:23-33 | `errors.Is` over a step error holds exactly when some error on its `Unwrap` chain equals the target or claims it through `Is` |
| GociErrors.MatchOnChain | goci-cli/erros.go:23-33 | when `errors.Is` holds, it gives the position on the `Unwrap` chain of a link that matches |
| GociErrors.MatchFound | goci-cli/erros.go:23-33 | a matching link at any depth of the `Unwrap` chain makes `errors.Is` hold |
| GociErrors.QuoteReadBack | goci-cli/erros.go:20 | the `%q` rendering of the step name loses nothing: read back, it gives the name and the text after it |
| GociErrors.StepNamedReadsBack | goci-cli/erros.go:20 | a message laid out as `Step: %q…` names the quoted step, whatever follows |
| GociSteps.NewStep | goci-cli/steps.go:13-21 | name, exe, message, proj and args land unchanged in the fields of the same meaning |
| GociSteps.Step.CommandLine | goci-cli/steps.go:24-25 | the command is the step's executable with exactly its arguments, run in the project directory |
| GociSteps.Step.Execute | goci-cli/steps.go:23-34 | an error is returned exactly when the run fails; success gives the message; failure gives "" and a `stepErr` of this step with msg "falied to execute" whose cause is the run error |
| GociSteps.ExecuteRunsOnlyItsCommand | goci-cli/steps.go:24-26 | the outcome depends only on how the step's own command runs |
| GociSteps.ExecuteFailureIdentifiesStep | goci-cli/steps.go:26-32 | a failure is recognised by `errors.Is` as any `stepErr` of the step and as the run error it wraps |
| GociTimeoutStep.NewTimeoutStep | goci-cli/timeoutStep.go:16-24 | the embedded step is `newStep` of the same arguments; a zero timeout becomes 30 s, any other value (negative ones too) is kept |
| GociTimeoutStep.DefaultIsThirtySeconds | goci-cli/timeoutStep.go:20-22 | the default budget is 30 000 000 000 ns |
| GociTimeoutStep.TimeoutStep.Execute | goci-cli/timeoutStep.go:26-50 | success iff the run succeeds, with the message; failure past the deadline gives msg "failed time out" with cause DeadlineExceeded; other failures give msg "failed to execute" with the run error as cause; the command is the step's own |
| GociTimeoutStep.TimeOutIsDeadlineExceeded | goci-cli/timeoutStep.go:34-41 | a timed-out failure is recognised both as DeadlineExceeded and as a failure of its step, never as ErrSignal, whatever the process returned |
| GociTimeoutStep.AgreesWithBareStep | goci-cli/timeoutStep.go:42-46 | without an expired deadline the timed step gives the bare step's result, except for the spelling of the reason |
| GociTimeoutStep.SuccessWhateverTheTimeout | goci-cli/timeoutStep.go:49 | on success the budget plays no part: every budget gives the success message |
| Todo.Appended | todo-cli/todo.go:20-28 | one item more, at the end, open, with the task and creation time given; earlier items unchanged |
| Todo.Completed | todo-cli/todo.go:35-36 | item i is done and completed now; its task and creation time and every other item are unchanged, and so is the length |
| Todo.Deleted | todo-cli/todo.go:45 | item i is gone; the items before keep their places, the items after move up one, in order |
| Todo.List.constructor | todo-cli/todo.go:18 | a new list is empty |
| Todo.List.Add | todo-cli/todo.go:20-28 | the new items are `Appended` of the old ones |
| Todo.List.Complete | todo-cli/todo.go:30-38 | out of range (i <= 0 or i > length): the error "Item i does not exist" and no change; in range: no error and the items are `Completed` |
| Todo.List.Delete | todo-cli/todo.go:40-47 | out of range: the error "Item i does not exist" and no change; in range: no error and the items are `Deleted` |
| Todo.List.String | todo-cli/todo.go:70-81 | the text returned is `Formatted(items)` |
| Todo.List.PrintIncomplete | todo-cli/todo.go:83-89 | the text written is `Pending(items)` |
| Todo.Formatted | todo-cli/todo.go:70-81 | the text is made of whole lines, and is empty exactly when the list is |
| Todo.Pending | todo-cli/todo.go:83-89 | the text is made of whole lines |
| Todo.FormattedLines | todo-cli/todo.go:70-81 | one line per item, in order: `"X "` or `" "`, the 1-based number, `": "`, the task |
| Todo.PendingLines | todo-cli/todo.go:83-89 | one line per open item, in order, numbered by the item's place in the whole list |
| Todo.OpenPlacesExact | todo-cli/todo.go:84-85 | the places `PendingLines` numbers are exactly the open items', each once, increasing |
| Todo.PendingEmptyIffAllDone | todo-cli/todo.go:83-89 | nothing is written exactly when every item is done |
| Todo.DeleteUndoesAdd | todo-cli/todo.go:20-47 | deleting the item just added gives back the list as it was |
| Todo.CompleteClosesOne | todo-cli/todo.go:35-36 | completing closes one open item, or none if it was already done |
| TodoTask.GetTask | todo-cli/cmd/todo/main.go:16-35 | non-empty args are returned unchanged; otherwise a read error is returned; otherwise "No tasks provided\t" when no line holds a task; otherwise the tasks of the lines |
| TodoTask.NonBlank | todo-cli/cmd/todo/main.go:22-26 | there are never more tasks than lines |
| TodoTask.TasksAreTrimmed | todo-cli/cmd/todo/main.go:23-25 | every task is non-empty and has nothing left to trim |
| TodoTask.NoTaskIffAllBlank | todo-cli/cmd/todo/main.go:31-33 | the "no tasks" error arises exactly when every line is white space |
| TodoTask.NonBlankAppend | todo-cli/cmd/todo/main.go:22-26 | lines are taken in input order: the tasks of two blocks are those of the first, then those of the second |
| TodoTask.OneLine | todo-cli/cmd/todo/main.go:23-26 | one line gives its trimmed text, or nothing when it is blank |
| Text.TrimSpace | todo-cli/cmd/todo/main.go:23 | the result is the infix of the line that follows its leading white space, everything after it is white space, and it starts and ends with a non-space character |
| Text.TrimSpaceEmptyIff | todo-cli/cmd/todo/main.go:23-24 | trimming leaves nothing exactly when the line is all white space |
| Text.TrimSpaceIdempotent | todo-cli/cmd/todo/main.go:23 | trimming twice is trimming once |
| Text.DecimalRoundTrip | todo-cli/todo.go:33 | the number `%d` prints reads back as itself |
| Text.LinesOfAppend | todo-cli/todo.go:78 | writing one more newline-terminated line after whole lines adds exactly that line |
| WordCounter.ReadSegment | word-counter/main.go:16 | the segment runs to just past the next newline, or to the end of the input at end of file |
| WordCounter.CountWords | word-counter/main.go:20-26 | the tokens counted are the words of the segment |
| WordCounter.ScanWord | word-counter/main.go:21-23 | one scan skips white space and takes one token, which is exactly one more word; when no token is left the words of the segment have all been counted |
| WordCounter.SkipSpace | word-counter/main.go:21-23 | skipping white space adds no word and stops where a word starts |
| WordCounter.TokenEnd | word-counter/main.go:21-23 | a token runs from a word start to the next space and is exactly one word |
| WordCounter.Count | word-counter/main.go:12-46 | first result: newlines + 1 when counting lines, else the words of the whole input; second: the input length when counting bytes, else 0 |
| WordCounter.WordsConcat | word-counter/main.go:21-25 | after text ending in white space the words of what follows add on, so counting per segment counts the whole input |
| WordCounter.NewlinesSegment | word-counter/main.go:16-19 | each segment read adds exactly its own closing newline |
| WordCounter.NoWordsInSpace | word-counter/main.go:21-25 | white space holds no word |
| WordCounter.OneRunOneWord | word-counter/main.go:21-25 | a run of non-space bytes is one word |
| WordCounter.NoNewlineOneLine | word-counter/main.go:15-31 | input without a newline, the empty input included, holds no newline and so counts as one line |
| WalkActions.Ext | walk-cli/actions.go:14 | the extension is a suffix of the path, empty or a dot followed by neither dot nor separator |
| WalkActions.NoExtNoDot | walk-cli/actions.go:14 | an empty extension means every dot is followed by a later separator |
| WalkActions.ExtOfName | walk-cli/actions.go:14 | the extension of `stem.suffix` is `.suffix` |
| WalkActions.DirectoriesFilteredOut | walk-cli/actions.go:11-13 | directories are always skipped |
| WalkActions.KeptFiles | walk-cli/actions.go:11-17 | a file is kept iff it is not smaller than size and, with an extension asked for, has it; size 0 skips no file for size; with no extension only the size rule applies |
| WalkActions.KeptFileEndsWithExt | walk-cli/actions.go:14-17 | a file kept for its extension ends with it, and the extension starts with a dot |
| WalkActions.ExtWithoutDotSkipsAll | walk-cli/actions.go:14-16 | an extension asked for without its dot skips every file |
| WalkActions.FilterOut | walk-cli/actions.go:10-18 | directories are skipped; a kept entry is at least `size` bytes and, when an extension is asked for, ends with it, dot first; with no extension asked for, every file of at least `size` bytes is kept |
| WalkActions.ListFile | walk-cli/actions.go:19-22 | the output is the path, character for character, followed by one newline |
| WalkActions.ListFileOneLine | walk-cli/actions.go:19-22 | the listing reads back as the one line holding the path |
| WalkMain.MultiFlag.Set | walk-cli/mian.go:18-21 | the value is appended after the earlier ones, and no error is returned |
| WalkMain.VisitEntry | walk-cli/mian.go:40-59 | a walk error is returned unchanged; a skipped entry gets no action; list mode only lists; an archive comes first and its failure stops the entry; then delete or list, and the last action's error is returned |
| WalkMain.DeleteExcludesListing | walk-cli/mian.go:47-57 | an entry is never both deleted and listed, and is archived before it is deleted |
| WalkMain.SkippedEntryIgnoresEffects | walk-cli/mian.go:44-46 | a skipped entry is treated the same whatever the effects would do |
| WalkMain.DirectoriesUntouched | walk-cli/mian.go:44-46 | a directory never triggers an action |
| WalkMain.PlainModeLists | walk-cli/mian.go:50-58 | with neither list nor delete, a kept entry is listed, after archiving when an archive is named |
| Colstat.Validate | colstat-cli/main.go:13-27 | no files, then a column below 1, then an operation other than sum or avg, decide the error in that order; success exactly when all three pass |
| Colstat.LoadError | colstat-cli/main.go:32-40 | an open error is wrapped as "Cannot open file"; a parse error is returned as is |
| Colstat.Consolidate | colstat-cli/main.go:28-42 | the file loop's result is `Gathered` of the files |
| Colstat.Run | colstat-cli/main.go:10-42 | the validation error if any; otherwise the first file error; otherwise the operation and the gathered data |
| Colstat.GatheredStopsAtFailure | colstat-cli/main.go:32-40 | after a failing file the later files change nothing |
| Colstat.FirstFailureDecides | colstat-cli/main.go:29-40 | the first file that fails to load decides the error |
| Colstat.AllParsedGathered | colstat-cli/main.go:28-42 | when every file loads, the data is the concatenation of all files' data, in `filenames` order |
| Colstat.ConcatenatedSnoc | colstat-cli/main.go:41 | appending one file's data at the back agrees with concatenating from the front |
| MdpPreview.Preview | mdp-cli/main.go:101-115 | linux gives xdg-open [fname]; windows gives cmd.exe ["/C", "start", fname]; darwin gives open [fname]; any other system gives "OS not supported"; the file name is always last |
| MdpPreview.ProgramsDistinct | mdp-cli/main.go:104-111 | each supported system gets its own program |
| MdpPreview.FileNameReadsBack | mdp-cli/main.go:115 | the file name is passed through untouched and can be read back |
| MdpPreview.ExtraParamsOnlyOnWindows | mdp-cli/main.go:105-115 | only Windows puts parameters of its own before the file name |

## Left out

- The goci pipeline driver `run` and its signal handling: the file that holds them is not part of this model. The driver is a race between goroutines, channels and operating-system signals.
- Launching processes, contexts and timers (`exec.Command`, `exec.CommandContext`, `context.WithTimeout`): each is a function parameter giving the run's error and whether the deadline expired.
- GociErrors.Message: errors that are not `*stepErr` (sentinels, `context.DeadlineExceeded`, process errors) are values compared by their text. Go compares them by identity, so two distinct errors with the same text are equal in the model.
- GociErrors.Quote: `%q` is modelled for ASCII and the escapes `\"`, `\\`, `\a`, `\b`, `\f`, `\n`, `\r`, `\t`, `\v` and `\xNN`. The `\u`/`\U` escapes of non-printable Unicode characters and the handling of invalid UTF-8 are not modelled.
- The clock: `time.Now()` is the parameter `now`, and the zero time is 0.
- JSON persistence of the todo list (`Save`, `Get`) and the flag dispatch of the todo `main`.
- Printing: `PrintIncomplete` and `String` return the text they would write.
- TodoTask.GetTask: the input is the lines the scanner delivers, then its error. Line splitting and the scanner's maximum token size are not modelled.
- WordCounter.IsSpace: word separators are the ASCII white-space bytes. The multi-byte Unicode spaces that `bufio.ScanWords` also splits on are not modelled.
- WordCounter.Count: a read error other than end of file, and its message on standard error, are not modelled, because the input is a finite byte sequence. The word scanner's maximum token size is not modelled either.
- The word counter's `main`, the walk tool's `main` and flag parsing, and `multiFlag.String` (the `%v` rendering of the flag values).
- WalkActions.Ext: the separator is `/`; the Windows separator `\` is not modelled.
- The traversal by `filepath.Walk`, the delete logger, and the effects of `listFile`, `archiveFile` and `delFile`: each effect is a function parameter giving its error.
- colstat-cli/csv.go: CSV parsing, `strconv.ParseFloat`, and the float `sum` and `avg`. The errors file with the sentinel texts is not part of this model, so errors are a datatype rather than rendered text. The printing of the result is not modelled either.
- mdp's content conversion, template, temporary file, `exec.LookPath`, the two-second pause and the launch itself.

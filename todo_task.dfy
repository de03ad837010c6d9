/**
 * `getTask` of the todo command: the tasks to add come from the command-line
 * arguments when there are any, and otherwise from the input, one task per
 * non-blank line. The reader is modelled as the lines a `bufio.Scanner`
 * delivers, followed by the error it stopped on, if any.
 */
module TodoTask {
  import opened Wrappers
  import opened Text

  /** What the scanner yields: its lines, then `scanner.Err()`. */
  datatype Input = Input(lines: seq<string>, readErr: Option<string>)

  /** The error for input that holds no task; the message ends in a tab character. */
  const NoTasks: string := "No tasks provided\t"

  /** The tasks the input lines give: each line trimmed, blank ones dropped, in input order. */
  function NonBlank(lines: seq<string>): (tasks: seq<string>)
    ensures |tasks| <= |lines|
  {
    if lines == [] then []
    else
      var line := TrimSpace(lines[|lines| - 1]);
      NonBlank(lines[..|lines| - 1]) + (if line != "" then [line] else [])
  }

  /**
   * `getTask`: the arguments, unchanged, when there are any, without reading
   * the input; otherwise the read error, if the scanner stopped on one; then
   * `NoTasks` if no line holds a task; and the tasks of the lines otherwise.
   */
  method GetTask(input: Input, args: seq<string>) returns (r: Result<seq<string>, string>)
    ensures args != [] ==> r == Success(args)
    ensures args == [] && input.readErr.Some? ==> r == Failure(input.readErr.value)
    ensures args == [] && input.readErr.None? && NonBlank(input.lines) == [] ==> r == Failure(NoTasks)
    ensures args == [] && input.readErr.None? && NonBlank(input.lines) != [] ==> r == Success(NonBlank(input.lines))
  {
    if |args| > 0 {
      return Success(args);
    }
    var tasks: seq<string> := [];
    var k := 0;
    while k < |input.lines|
      invariant 0 <= k <= |input.lines|
      invariant tasks == NonBlank(input.lines[..k])
    {
      assert input.lines[..k + 1][..k] == input.lines[..k];
      var line := TrimSpace(input.lines[k]);
      if line != "" {
        tasks := tasks + [line];
      }
      k := k + 1;
    }
    assert input.lines[..k] == input.lines;
    if input.readErr.Some? {
      return Failure(input.readErr.value);
    }
    if |tasks| == 0 {
      return Failure(NoTasks);
    }
    return Success(tasks);
  }

  // ---------------------------------------------------------------------
  // Lemmas.

  /** Every task is a non-empty string with nothing left to trim. */
  lemma {:induction false} TasksAreTrimmed(lines: seq<string>)
    ensures forall k :: 0 <= k < |NonBlank(lines)| ==>
              NonBlank(lines)[k] != "" && TrimSpace(NonBlank(lines)[k]) == NonBlank(lines)[k]
    decreases |lines|
  {
    if lines != [] {
      var init := lines[..|lines| - 1];
      TasksAreTrimmed(init);
      TrimSpaceIdempotent(lines[|lines| - 1]);
    }
  }

  /** The input holds no task exactly when every line is blank. */
  lemma {:induction false} NoTaskIffAllBlank(lines: seq<string>)
    ensures NonBlank(lines) == [] <==> forall k :: 0 <= k < |lines| ==> AllSpace(lines[k])
    decreases |lines|
  {
    if lines != [] {
      var n := |lines| - 1;
      var init := lines[..n];
      NoTaskIffAllBlank(init);
      TrimSpaceEmptyIff(lines[n]);
      assert (NonBlank(lines) == []) == (NonBlank(init) == [] && AllSpace(lines[n]));
      AllBlankSnoc(lines);
    }
  }

  /** Every line is blank exactly when all but the last are and the last is too. */
  lemma AllBlankSnoc(lines: seq<string>)
    requires lines != []
    ensures var n := |lines| - 1;
            (forall k :: 0 <= k < |lines| ==> AllSpace(lines[k]))
            == ((forall k :: 0 <= k < n ==> AllSpace(lines[..n][k])) && AllSpace(lines[n]))
  {
    var n := |lines| - 1;
    assert forall k :: 0 <= k < n ==> lines[..n][k] == lines[k];
  }

  /** Lines are taken in order: the tasks of two blocks of lines are the tasks of the first, then of the second. */
  lemma {:induction false} NonBlankAppend(a: seq<string>, b: seq<string>)
    ensures NonBlank(a + b) == NonBlank(a) + NonBlank(b)
    decreases |b|
  {
    if b == [] {
      assert a + b == a;
    } else {
      var n := |b| - 1;
      assert (a + b)[..|a + b| - 1] == a + b[..n];
      NonBlankAppend(a, b[..n]);
    }
  }

  /** One line gives its trimmed text as a task, or nothing when it is blank. */
  lemma OneLine(line: string)
    ensures NonBlank([line]) == if AllSpace(line) then [] else [TrimSpace(line)]
  {
    assert [line][..0] == [];
    TrimSpaceEmptyIff(line);
  }
}

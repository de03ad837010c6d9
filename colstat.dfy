/**
 * The argument checks and data gathering of the column-statistics tool's
 * `run`: the arguments are checked in a fixed order, then every file is
 * opened and parsed in turn and the values of the chosen column are
 * concatenated, the first failure ending the run. Opening and parsing one
 * file is abstracted as `load`, which reports an open error, a parse error
 * or the parsed values; the element type of the values is left abstract.
 */
module Colstat {
  import opened Wrappers

  /** The statistics `-op` selects. */
  datatype Op = Sum | Avg

  /** What opening and parsing one file gives. */
  datatype Load<T, E> = OpenFailed(cause: E) | ParseFailed(cause: E) | Parsed(data: seq<T>)

  /**
   * The argument errors of `run`: the sentinels `ErrNoFiles`,
   * `ErrInvalidColumn` and `ErrInvalidOperation`, the last two wrapped with
   * the offending value.
   */
  datatype ArgError = NoFiles | InvalidColumn(column: int) | InvalidOperation(op: string)

  /**
   * The errors of `run`: a rejected argument, an open failure wrapped as
   * "Cannot open file", or a parse error as returned.
   */
  datatype RunError<E> =
    | Invalid(reason: ArgError)
    | CannotOpen(cause: E)
    | ParseError(cause: E)

  /** The argument checks of `run`: files first, then the column, then the operation. */
  function Validate(filenames: seq<string>, op: string, column: int): (r: Result<Op, ArgError>)
    ensures filenames == [] ==> r == Failure(NoFiles)
    ensures filenames != [] && column < 1 ==> r == Failure(InvalidColumn(column))
    ensures filenames != [] && column >= 1 && op != "sum" && op != "avg" ==> r == Failure(InvalidOperation(op))
    ensures r.Success? <==> filenames != [] && column >= 1 && (op == "sum" || op == "avg")
    ensures r.Success? ==> (r.value == Sum <==> op == "sum")
  {
    if |filenames| == 0 then Failure(NoFiles)
    else if column < 1 then Failure(InvalidColumn(column))
    else if op == "sum" then Success(Sum)
    else if op == "avg" then Success(Avg)
    else Failure(InvalidOperation(op))
  }

  /** The error `run` returns for a file that could not be loaded. */
  function LoadError<T, E>(l: Load<T, E>): (e: RunError<E>)
    requires !l.Parsed?
    ensures l.OpenFailed? ==> e == CannotOpen(l.cause)
    ensures l.ParseFailed? ==> e == ParseError(l.cause)
  {
    if l.OpenFailed? then CannotOpen(l.cause) else ParseError(l.cause)
  }

  /** What the file loop produces: the values of all files in order, or the error of the first that fails. */
  function Gathered<T, E>(filenames: seq<string>, load: string -> Load<T, E>): Result<seq<T>, RunError<E>> {
    if filenames == [] then Success([])
    else
      var before := Gathered(filenames[..|filenames| - 1], load);
      var last := load(filenames[|filenames| - 1]);
      if before.Failure? then before
      else if !last.Parsed? then Failure(LoadError(last))
      else Success(before.value + last.data)
  }

  /** The values of all files, in `filenames` order. */
  function Concatenated<T, E>(filenames: seq<string>, load: string -> Load<T, E>): seq<T>
    requires forall k :: 0 <= k < |filenames| ==> load(filenames[k]).Parsed?
  {
    if filenames == [] then []
    else load(filenames[0]).data + Concatenated(filenames[1..], load)
  }

  /** The file loop of `run`: load each file in turn, append its values, stop at the first failure. */
  method Consolidate<T, E>(filenames: seq<string>, load: string -> Load<T, E>) returns (r: Result<seq<T>, RunError<E>>)
    ensures r == Gathered(filenames, load)
  {
    var consolidate: seq<T> := [];
    var k := 0;
    while k < |filenames|
      invariant 0 <= k <= |filenames|
      invariant Gathered(filenames[..k], load) == Success(consolidate)
    {
      assert filenames[..k + 1][..k] == filenames[..k];
      var l := load(filenames[k]);
      if l.OpenFailed? {
        GatheredStopsAtFailure(filenames, load, k + 1);
        return Failure(CannotOpen(l.cause));
      }
      if l.ParseFailed? {
        GatheredStopsAtFailure(filenames, load, k + 1);
        return Failure(ParseError(l.cause));
      }
      consolidate := consolidate + l.data;
      k := k + 1;
    }
    assert filenames[..k] == filenames;
    return Success(consolidate);
  }

  /**
   * `run` up to the statistics: the checks, then the file loop. On success it
   * gives the operation to apply and the values to apply it to.
   */
  method Run<T, E>(filenames: seq<string>, op: string, column: int, load: string -> Load<T, E>)
    returns (r: Result<(Op, seq<T>), RunError<E>>)
    ensures Validate(filenames, op, column).Failure? ==> r == Failure(Invalid(Validate(filenames, op, column).error))
    ensures Validate(filenames, op, column).Success? && Gathered(filenames, load).Failure? ==>
              r == Failure(Gathered(filenames, load).error)
    ensures Validate(filenames, op, column).Success? && Gathered(filenames, load).Success? ==>
              r == Success((Validate(filenames, op, column).value, Gathered(filenames, load).value))
  {
    var checked := Validate(filenames, op, column);
    if checked.Failure? {
      return Failure(Invalid(checked.error));
    }
    var data := Consolidate(filenames, load);
    if data.Failure? {
      return Failure(data.error);
    }
    return Success((checked.value, data.value));
  }

  // ---------------------------------------------------------------------
  // Lemmas.

  /** Once a prefix of the files fails, the files after it change nothing. */
  lemma {:induction false} GatheredStopsAtFailure<T, E>(filenames: seq<string>, load: string -> Load<T, E>, k: nat)
    requires k <= |filenames|
    requires Gathered(filenames[..k], load).Failure?
    ensures Gathered(filenames, load) == Gathered(filenames[..k], load)
    decreases |filenames| - k
  {
    if k < |filenames| {
      var next := filenames[..k + 1];
      assert next[..k] == filenames[..k];
      GatheredStopsAtFailure(filenames, load, k + 1);
    } else {
      assert filenames[..k] == filenames;
    }
  }

  /** The first file that fails to load decides the error; the files after it are never looked at. */
  lemma {:induction false} FirstFailureDecides<T, E>(filenames: seq<string>, load: string -> Load<T, E>, k: nat)
    requires k < |filenames|
    requires forall j :: 0 <= j < k ==> load(filenames[j]).Parsed?
    requires !load(filenames[k]).Parsed?
    ensures Gathered(filenames, load) == Failure(LoadError(load(filenames[k])))
  {
    AllParsedGathered(filenames[..k], load);
    var next := filenames[..k + 1];
    assert next[..k] == filenames[..k];
    GatheredStopsAtFailure(filenames, load, k + 1);
  }

  /** When every file loads, the result is the values of all files, in `filenames` order. */
  lemma {:induction false} AllParsedGathered<T, E>(filenames: seq<string>, load: string -> Load<T, E>)
    requires forall k :: 0 <= k < |filenames| ==> load(filenames[k]).Parsed?
    ensures Gathered(filenames, load) == Success(Concatenated(filenames, load))
    decreases |filenames|
  {
    if filenames != [] {
      var n := |filenames| - 1;
      var init := filenames[..n];
      AllParsedGathered(init, load);
      ConcatenatedSnoc(filenames, load);
    }
  }

  /** Concatenating from the front agrees with appending one file's values at the back. */
  lemma {:induction false} ConcatenatedSnoc<T, E>(filenames: seq<string>, load: string -> Load<T, E>)
    requires filenames != []
    requires forall k :: 0 <= k < |filenames| ==> load(filenames[k]).Parsed?
    ensures Concatenated(filenames, load) ==
            Concatenated(filenames[..|filenames| - 1], load) + load(filenames[|filenames| - 1]).data
    decreases |filenames|
  {
    var n := |filenames| - 1;
    if n > 0 {
      var tail := filenames[1..];
      assert tail[..|tail| - 1] == filenames[..n][1..];
      ConcatenatedSnoc(tail, load);
    }
  }
}

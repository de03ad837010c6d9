/**
 * The choice of the preview command in the markdown previewer: `preview`
 * picks the program that opens a file on the running operating system and
 * the parameters to give it, the file name last. Looking the program up on
 * the `PATH`, waiting, and running it are not part of this model.
 */
module MdpPreview {
  import opened Wrappers

  /** The program to run and its parameters. */
  datatype Launch = Launch(name: string, params: seq<string>)

  const Unsupported: string := "OS not supported"

  /** The operating systems `preview` knows how to open a file on. */
  predicate Supported(goos: string) {
    goos == "linux" || goos == "windows" || goos == "darwin"
  }

  /** `preview` up to `exec.LookPath`: the launch for `runtime.GOOS`, or the error for any other system. */
  function Preview(goos: string, fname: string): (r: Result<Launch, string>)
    ensures r.Success? <==> Supported(goos)
    ensures !Supported(goos) ==> r == Failure(Unsupported)
    ensures r.Success? ==> |r.value.params| >= 1 && r.value.params[|r.value.params| - 1] == fname
    ensures goos == "linux" ==> r == Success(Launch("xdg-open", [fname]))
    ensures goos == "windows" ==> r == Success(Launch("cmd.exe", ["/C", "start", fname]))
    ensures goos == "darwin" ==> r == Success(Launch("open", [fname]))
  {
    var chosen: Option<(string, seq<string>)> :=
      match goos
      case "linux" => Some(("xdg-open", []))
      case "windows" => Some(("cmd.exe", ["/C", "start"]))
      case "darwin" => Some(("open", []))
      case _ => None;
    assert [] + [fname] == [fname] && ["/C", "start"] + [fname] == ["/C", "start", fname];
    if chosen.None? then Failure(Unsupported)
    else Success(Launch(chosen.value.0, chosen.value.1 + [fname]))
  }

  /** Each supported system gets its own program: the launch tells which system it was chosen for. */
  lemma ProgramsDistinct(os1: string, os2: string, f1: string, f2: string)
    requires Supported(os1) && Supported(os2) && os1 != os2
    ensures Preview(os1, f1).value.name != Preview(os2, f2).value.name
  {
  }

  /** The file name is passed through untouched: it can be read back from the launch. */
  lemma FileNameReadsBack(goos: string, f1: string, f2: string)
    requires Supported(goos)
    ensures Preview(goos, f1).value.params[|Preview(goos, f1).value.params| - 1] == f1
    ensures Preview(goos, f1) == Preview(goos, f2) <==> f1 == f2
  {
  }

  /** Only the Windows launch needs parameters of its own before the file name. */
  lemma ExtraParamsOnlyOnWindows(goos: string, fname: string)
    requires Supported(goos)
    ensures |Preview(goos, fname).value.params| == (if goos == "windows" then 3 else 1)
  {
  }
}

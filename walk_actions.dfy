/**
 * The per-file decisions of the walk tool: which entries to skip, and how a
 * kept file is listed. File information is reduced to what the decision
 * reads (whether the entry is a directory, and its size); the extension is
 * the one `filepath.Ext` gives with `/` as the path separator.
 */
module WalkActions {
  import opened Text

  /** The part of `os.FileInfo` the walk consults. */
  datatype FileInfo = FileInfo(isDir: bool, size: int)

  /**
   * `filepath.Ext`: the suffix of `path` from the last `.` of its final
   * element, or the empty string when that element has no `.`.
   */
  function Ext(path: string): (e: string)
    ensures |e| <= |path| && e == path[|path| - |e|..]
    ensures e == [] || e[0] == '.'
    ensures forall k :: 1 <= k < |e| ==> e[k] != '.' && e[k] != '/'
  {
    if path == [] || path[|path| - 1] == '/' then ""
    else if path[|path| - 1] == '.' then "."
    else
      var e := Ext(path[..|path| - 1]);
      if e == [] then "" else e + [path[|path| - 1]]
  }

  /**
   * `filterOut`: directories, files smaller than `size`, and, when `ext` is
   * given, files of another extension are skipped.
   */
  predicate FilterOut(path: string, ext: string, size: int, info: FileInfo)
    ensures info.isDir ==> FilterOut(path, ext, size, info)
    ensures !FilterOut(path, ext, size, info) ==>
              size <= info.size && (ext == "" || (|ext| <= |path| && path[|path| - |ext|..] == ext && ext[0] == '.'))
    ensures !info.isDir && size <= info.size && ext == "" ==> !FilterOut(path, ext, size, info)
  {
    if info.isDir || info.size < size then true
    else if ext != "" && Ext(path) != ext then true
    else false
  }

  /** `listFile`: what `fmt.Fprintln(out, path)` writes. */
  function ListFile(path: string): (out: string)
    ensures |out| == |path| + 1 && out[..|path|] == path && out[|path|] == '\n'
  {
    path + "\n"
  }

  // ---------------------------------------------------------------------
  // Lemmas.

  /** An empty extension means the final element of the path has no dot. */
  lemma {:induction false} NoExtNoDot(path: string)
    requires Ext(path) == []
    ensures forall k :: 0 <= k < |path| && path[k] == '.' ==> '/' in path[k + 1..]
    decreases |path|
  {
    if path != [] && path[|path| - 1] != '/' {
      var n := |path| - 1;
      NoExtNoDot(path[..n]);
      forall k | 0 <= k < |path| && path[k] == '.' ensures '/' in path[k + 1..] {
        assert k < n;
        assert path[..n][k] == '.';
        var m :| m in path[..n][k + 1..] && m == '/';
        assert path[..n][k + 1..] <= path[k + 1..];
      }
    } else if path != [] {
      forall k | 0 <= k < |path| && path[k] == '.' ensures '/' in path[k + 1..] {
        assert path[|path| - 1] in path[k + 1..];
      }
    }
  }

  /** The extension of a name is what was appended after its last dot. */
  lemma ExtOfName(stem: string, suffix: string)
    requires '/' !in suffix && '.' !in suffix
    ensures Ext(stem + "." + suffix) == "." + suffix
  {
    ExtAppend(stem + ".", suffix);
  }

  /** Characters other than `.` and `/` extend a non-empty extension. */
  lemma {:induction false} ExtAppend(s: string, suffix: string)
    requires s != [] && s[|s| - 1] == '.'
    requires '/' !in suffix && '.' !in suffix
    ensures Ext(s + suffix) == "." + suffix
    decreases |suffix|
  {
    if suffix == [] {
      assert s + suffix == s;
    } else {
      var n := |suffix| - 1;
      assert (s + suffix)[..|s + suffix| - 1] == s + suffix[..n];
      ExtAppend(s, suffix[..n]);
      assert suffix[..n] + [suffix[n]] == suffix;
    }
  }

  /** Directories are always skipped. */
  lemma DirectoriesFilteredOut(path: string, ext: string, size: int, info: FileInfo)
    requires info.isDir
    ensures FilterOut(path, ext, size, info)
  {
  }

  /**
   * A file is kept exactly when it is not smaller than `size` and, with an
   * extension asked for, has that extension; with a size of 0 no file of
   * any size is skipped for its size.
   */
  lemma KeptFiles(path: string, ext: string, size: int, info: FileInfo)
    requires !info.isDir && info.size >= 0
    ensures !FilterOut(path, ext, size, info) <==> size <= info.size && (ext == "" || Ext(path) == ext)
    ensures size == 0 ==> (FilterOut(path, ext, size, info) <==> ext != "" && Ext(path) != ext)
    ensures ext == "" ==> (FilterOut(path, ext, size, info) <==> info.size < size)
  {
  }

  /** A kept file asked for by extension ends with that extension. */
  lemma KeptFileEndsWithExt(path: string, ext: string, size: int, info: FileInfo)
    requires ext != "" && !FilterOut(path, ext, size, info)
    ensures |ext| <= |path| && path[|path| - |ext|..] == ext && ext[0] == '.'
  {
  }

  /** An extension asked for without its leading dot matches no file: every file is skipped. */
  lemma ExtWithoutDotSkipsAll(path: string, ext: string, size: int, info: FileInfo)
    requires ext != "" && ext[0] != '.'
    ensures FilterOut(path, ext, size, info)
  {
  }

  /** The listing of a path without a newline is one line, the path itself. */
  lemma ListFileOneLine(path: string)
    requires '\n' !in path
    ensures LinesOf(ListFile(path)) == [path]
  {
    LinesOfAppend("", path);
    assert "" + path + "\n" == ListFile(path);
  }
}

/**
 * The walk tool's command line and its per-entry dispatch. The repeatable
 * `-ext` flag accumulates its values in a `multiFlag`; the callback that
 * `run` hands to `filepath.Walk` decides, for each entry, whether to skip it,
 * list it, archive it, delete it, or archive it and then delete or list it.
 * The effects themselves (`listFile` on the output, `archiveFile`, `delFile`)
 * are abstracted as a function `perform` from the action to its error.
 */
module WalkMain {
  import opened Wrappers
  import opened WalkActions

  /** `multiFlag`: the values of a flag given several times, in command-line order. */
  class MultiFlag {
    var values: seq<string>

    constructor ()
      ensures values == []
    {
      values := [];
    }

    /** `Set`: record one more value after the earlier ones; it never fails. */
    method Set(value: string) returns (err: Option<string>)
      modifies this
      ensures values == old(values) + [value]
      ensures err == None
    {
      values := values + [value];
      err := None;
    }
  }

  /** `config`, with the extension filter as `filterOut` takes it: one extension, or "" for none. */
  datatype Config = Config(ext: string, size: int, list: bool, del: bool, archive: string)

  /** What the callback does to an entry. */
  datatype Action =
    | ListAction(path: string)
    | ArchiveAction(dest: string, root: string, path: string)
    | DeleteAction(path: string)

  /** The actions taken on one entry, in order, and the error the callback returns. */
  datatype Visit<E> = Visit(actions: seq<Action>, err: Option<E>)

  /**
   * The callback of `filepath.Walk` in `run`, for the entry `path` under
   * `root`. `walkErr` is the error the walk passes in; `perform` gives the
   * error of each action. An error from the walk is handed back untouched
   * and nothing is done; a skipped entry is left alone, without an error.
   * A kept entry always gets an action, and the error of its last action is
   * the result. List mode only lists. Otherwise an archive comes first, and
   * a failed archive stops there; after it, if any, the entry is deleted in
   * delete mode and listed otherwise.
   */
  function VisitEntry<E>(cfg: Config, root: string, path: string, info: FileInfo, walkErr: Option<E>,
                         perform: Action -> Option<E>): (v: Visit<E>)
    ensures walkErr.Some? ==> v == Visit([], walkErr)
    ensures walkErr.None? && FilterOut(path, cfg.ext, cfg.size, info) ==> v == Visit([], None)
    ensures walkErr.None? && !FilterOut(path, cfg.ext, cfg.size, info) ==>
              v.actions != [] && v.err == perform(v.actions[|v.actions| - 1])
    ensures walkErr.None? && !FilterOut(path, cfg.ext, cfg.size, info) && cfg.list ==>
              v.actions == [ListAction(path)]
    ensures walkErr.None? && !FilterOut(path, cfg.ext, cfg.size, info) && !cfg.list && cfg.archive != "" ==>
              v.actions[0] == ArchiveAction(cfg.archive, root, path)
              && (perform(v.actions[0]).Some? <==> |v.actions| == 1)
    ensures walkErr.None? && !FilterOut(path, cfg.ext, cfg.size, info) && !cfg.list
            && (cfg.archive == "" || perform(ArchiveAction(cfg.archive, root, path)).None?) ==>
              v.actions[|v.actions| - 1] == (if cfg.del then DeleteAction(path) else ListAction(path))
              && |v.actions| == (if cfg.archive == "" then 1 else 2)
  {
    if walkErr.Some? then Visit([], walkErr)
    else if FilterOut(path, cfg.ext, cfg.size, info) then Visit([], None)
    else if cfg.list then Visit([ListAction(path)], perform(ListAction(path)))
    else
      var archive := ArchiveAction(cfg.archive, root, path);
      if cfg.archive != "" && perform(archive).Some? then Visit([archive], perform(archive))
      else
        var before := if cfg.archive != "" then [archive] else [];
        var last := if cfg.del then DeleteAction(path) else ListAction(path);
        Visit(before + [last], perform(last))
  }

  // ---------------------------------------------------------------------
  // Lemmas.

  /** Whatever the flags, an entry is never both deleted and listed, and nothing is deleted before it is archived. */
  lemma DeleteExcludesListing<E>(cfg: Config, root: string, path: string, info: FileInfo, walkErr: Option<E>,
                                 perform: Action -> Option<E>)
    ensures var v := VisitEntry(cfg, root, path, info, walkErr, perform);
            && !(DeleteAction(path) in v.actions && ListAction(path) in v.actions)
            && (DeleteAction(path) in v.actions && cfg.archive != "" ==>
                  v.actions == [ArchiveAction(cfg.archive, root, path), DeleteAction(path)])
  {
  }

  /** A skipped entry gets the same treatment whatever the effects would do. */
  lemma SkippedEntryIgnoresEffects<E>(cfg: Config, root: string, path: string, info: FileInfo,
                                      p1: Action -> Option<E>, p2: Action -> Option<E>)
    requires FilterOut(path, cfg.ext, cfg.size, info)
    ensures VisitEntry(cfg, root, path, info, None, p1) == VisitEntry(cfg, root, path, info, None, p2)
  {
  }

  /** A directory never triggers an action, under any configuration. */
  lemma DirectoriesUntouched<E>(cfg: Config, root: string, path: string, size: int, perform: Action -> Option<E>)
    ensures VisitEntry(cfg, root, path, FileInfo(true, size), None, perform).actions == []
  {
    DirectoriesFilteredOut(path, cfg.ext, cfg.size, FileInfo(true, size));
  }

  /**
   * With no error from the effects, a kept entry in plain mode (no list, no
   * delete) is listed, after being archived when an archive is named.
   */
  lemma PlainModeLists<E>(cfg: Config, root: string, path: string, info: FileInfo, perform: Action -> Option<E>)
    requires !cfg.list && !cfg.del && !FilterOut(path, cfg.ext, cfg.size, info)
    requires forall a :: perform(a) == None
    ensures VisitEntry(cfg, root, path, info, None, perform) ==
            Visit((if cfg.archive != "" then [ArchiveAction(cfg.archive, root, path)] else []) + [ListAction(path)], None)
  {
  }
}

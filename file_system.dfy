/** The file system as the two core files see it: the set of existing
    directories, the set of existing files, and the log of calls made to the
    tag-building collaborators (`create_tags`, `move_tags`, `update_tags`),
    whose own code is not part of this model. `FsState` is the value; the class
    `FileSystem` is the state the operations of src/dirs.rs and src/main.rs
    change in place, and each of its methods is specified by the transition
    function of the same name on `FsState`. */
module FileSystems {
  import opened Paths

  datatype Call =
    | CreateTags(srcDirs: seq<Path>, target: Path)
    | MoveTags(from: Path, to: Path)
    | UpdateTags(tree: string)

  datatype FsState = FsState(dirs: set<Path>, files: set<Path>, calls: seq<Call>)

  /** `Path::is_dir`: the empty path is never a directory. */
  predicate IsDir(dirs: set<Path>, p: Path)
  {
    p != [] && p in dirs
  }

  /** `fs::create_dir_all(p)` succeeds unless `p` or one of its ancestors is a file. */
  predicate CanCreateDirs(files: set<Path>, p: Path)
  {
    Prefixes(p) !! files
  }

  /** The state after a successful `fs::create_dir_all(p)`. */
  function DirsCreated(st: FsState, p: Path): (st': FsState)
    ensures p != [] ==> p in st'.dirs
    ensures st.dirs <= st'.dirs && st'.files == st.files && st'.calls == st.calls
  {
    st.(dirs := st.dirs + Prefixes(p))
  }

  /** The state after removing the directory `root` with everything under it. */
  function TreeRemoved(st: FsState, root: Path): (st': FsState)
    ensures forall q :: q in st'.dirs <==> q in st.dirs && !(root <= q)
    ensures forall q :: q in st'.files <==> q in st.files && !(root <= q)
    ensures st'.calls == st.calls
  {
    st.(dirs := (set d | d in st.dirs && !(root <= d)),
        files := (set f | f in st.files && !(root <= f)))
  }

  /** `create_tags` was asked to write `target`; it succeeded iff `ok`. */
  function TagsCreated(st: FsState, srcDirs: seq<Path>, target: Path, ok: bool): FsState
  {
    st.(files := if ok then st.files + {target} else st.files,
        calls := st.calls + [CreateTags(srcDirs, target)])
  }

  /** `move_tags` was asked to move `from` to `to`; it succeeded iff `ok`. */
  function TagsMoved(st: FsState, from: Path, to: Path, ok: bool): FsState
  {
    st.(files := if ok then st.files - {from} + {to} else st.files,
        calls := st.calls + [MoveTags(from, to)])
  }

  /** `update_tags` was run for the tree named `tree`. */
  function TagsUpdated(st: FsState, tree: string): FsState
  {
    st.(calls := st.calls + [UpdateTags(tree)])
  }

  class FileSystem {
    var dirs: set<Path>
    var files: set<Path>
    var calls: seq<Call>

    function State(): FsState
      reads this
    {
      FsState(dirs, files, calls)
    }

    constructor (dirs: set<Path>, files: set<Path>)
      ensures State() == FsState(dirs, files, [])
    {
      this.dirs := dirs;
      this.files := files;
      this.calls := [];
    }

    /** `fs::create_dir_all(p)`: creates `p` and all its missing ancestors. */
    method CreateDirAll(p: Path) returns (ok: bool)
      modifies this
      ensures ok == CanCreateDirs(old(files), p)
      ensures State() == if ok then DirsCreated(old(State()), p) else old(State())
    {
      ok := Prefixes(p) !! files;
      if ok {
        dirs := dirs + Prefixes(p);
      }
    }

    /** `TempDir::new_in`: creates the directory `p` under the name it settled
        on (it retries with another random suffix while a name is taken, so
        `p` is that fresh name); `permitted` is false when it fails for
        other reasons. */
    method CreateDir(p: Path, permitted: bool) returns (ok: bool)
      modifies this
      ensures ok == permitted
      ensures State() == if ok then old(State()).(dirs := old(dirs) + {p}) else old(State())
    {
      ok := permitted;
      if ok {
        dirs := dirs + {p};
      }
    }

    /** `fs::remove_dir_all(root)`, as a `TempDir` does when closed or dropped. */
    method RemoveDirAll(root: Path)
      modifies this
      ensures State() == TreeRemoved(old(State()), root)
    {
      dirs := set d | d in dirs && !(root <= d);
      files := set f | f in files && !(root <= f);
    }

    method CreateTags(srcDirs: seq<Path>, target: Path, ok: bool)
      modifies this
      ensures State() == TagsCreated(old(State()), srcDirs, target, ok)
    {
      if ok {
        files := files + {target};
      }
      calls := calls + [Call.CreateTags(srcDirs, target)];
    }

    method MoveTags(from: Path, to: Path, ok: bool)
      modifies this
      ensures State() == TagsMoved(old(State()), from, to, ok)
    {
      if ok {
        files := files - {from} + {to};
      }
      calls := calls + [Call.MoveTags(from, to)];
    }

    method UpdateTags(tree: string)
      modifies this
      ensures State() == TagsUpdated(old(State()), tree)
    {
      calls := calls + [Call.UpdateTags(tree)];
    }
  }
}

# rusty-tags: location resolution and the run sequence, in Dafny

rusty-tags builds editor tag files for a cargo project, its dependencies and
the Rust standard library. This project models two parts of it:

- **src/dirs.rs** — where rusty-tags keeps its files (`~/.rusty-tags`,
  `~/.rusty-tags/cache`) and where cargo's home directory is. Cargo's home is
  found by reading the output of `multirust show-override` line by line. The
  first line that splits at `" location: "` into exactly two pieces names a
  toolchain location, and `<location>/cargo` is used if it is a directory.
  Otherwise the search falls back to `CARGO_HOME` and then to `~/.cargo`.
  Output with no such line is an error. Each directory is created, with its
  ancestors, when it does not exist yet.
- **src/main.rs** — the run: fetch `cargo metadata`, whose error text is
  standard error or else standard output. Then build the standard library's
  tags when `RUST_SRC_PATH` is set. That step has four guards: unset (skip),
  not a directory (error), tags file present and no `--force-recreate` (skip),
  otherwise rebuild. A rebuild uses the curated crate directories that exist,
  in list order. It writes to a temporary directory inside the source tree and
  then moves the file into place. Finally, the tags of each dependency tree
  are updated in order, stopping at the first failure.

The file system is a class `FileSystem`. It holds the set of directories, the
set of files and the log of calls made to the tag-building collaborators.
Each operation is specified by a transition function on the value `FsState`.
The environment, the spawned processes and the collaborators whose code is
not part of this model are given as inputs: `Env`, `CargoRun`, `StdLibTools`
and `DepTree`.

Files: `paths.dfy` (paths and ancestors), `rt_result.dfy` (results, errors,
the source's messages), `text.dfy` (`str::split` and `str::lines`),
`file_system.dfy`, `environment.dfy`, `dirs.dfy` (src/dirs.rs), `main.dfy`
(src/main.rs).

`update_all_tags` stops at the first failing tree (`try!` inside the loop).

## Model

| member | source | states |
|---|---|---|
| Paths.PathOf | src/dirs.rs:106-107 | A string becomes the empty path exactly when it is empty; otherwise it is one component. |
| Paths.Prefixes | src/dirs.rs:59 | What `create_dir_all(p)` makes exist: `p` itself (when non-empty) and only non-empty prefixes of `p`. |
| Paths.PrefixesOfChild | src/dirs.rs:48-60 | Creating `<dir>/cache` creates exactly the ancestors of `<dir>`, `<dir>` itself and the child. |
| RtResult.NoLocationMessage | src/dirs.rs:119 | The no-location error message ends with the whole multirust output. |
| Text.IndexOf | src/dirs.rs:104 | The leftmost occurrence of the separator; none means no occurrence at all. |
| Text.Split | src/dirs.rs:104 | A split always yields at least one piece. |
| Text.JoinSplit | src/dirs.rs:104 | Joining the pieces of a split with the separator gives back the line. |
| Text.SplitPartsHaveNoSeparator | src/dirs.rs:104 | No piece of a split contains the separator. |
| Text.SplitInTwo | src/dirs.rs:104-105 | Two pieces iff there is a first separator and none after it; the second piece is the text after that separator. |
| Text.NoSeparatorOnePiece | src/dirs.rs:104-105 | A line with no separator is a single piece. |
| Text.TwoSeparatorsThreePieces | src/dirs.rs:104-105 | Two non-overlapping separators give at least three pieces, even when the leftmost match overlaps the first of them. |
| Text.LinesHaveNoNewline | src/dirs.rs:103 | No line produced by `lines()` contains a line break. |
| Text.LinesRoundTrip | src/dirs.rs:103 | Lines without breaks or a trailing CR, each written with a following newline, are read back exactly. |
| FileSystems.DirsCreated | src/dirs.rs:58-60 | After `create_dir_all(p)` a non-empty `p` is a directory; directories are only added; files and calls are unchanged. |
| FileSystems.TreeRemoved | src/main.rs:139 | Removing a directory tree removes exactly the paths under it. |
| FileSystems.FileSystem.CreateDirAll | src/dirs.rs:59 | Succeeds iff no prefix of the path is a file, and then adds all prefixes as directories. |
| FileSystems.FileSystem.CreateDir | src/main.rs:129 | Creating the temporary directory under the fresh name `TempDir` settled on adds it to the directories, unless `TempDir` fails for another reason. |
| FileSystems.FileSystem.RemoveDirAll | src/main.rs:139 | Closing the temporary directory removes it with its contents. |
| FileSystems.FileSystem.CreateTags | src/main.rs:136 | Records the call; on success the target file exists. |
| FileSystems.FileSystem.MoveTags | src/main.rs:137 | Records the call; on success the file is at the destination and no longer at the source. |
| FileSystems.FileSystem.UpdateTags | src/main.rs:54 | Records the call for the named tree. |
| Dirs.HomeDir | src/dirs.rs:40-46 | Ok with the home directory iff it is known, otherwise the "Couldn't read home directory!" error. |
| Dirs.RustyTagsLayout | src/dirs.rs:48-56 | `rusty_tags_dir` is `<home>/.rusty-tags` and the cache dir is `<home>/.rusty-tags/cache`; a missing home fails both with the home error. |
| Dirs.EnsureDirLands | src/dirs.rs:73-77 | The create-if-missing step returns its path or an error; on success a non-empty path is a directory; an existing directory leaves the state unchanged; directories are only added. |
| Dirs.RustyTagsCacheDirLands | src/dirs.rs:48-63 | After the cache step succeeds, the result is `~/.rusty-tags/cache` and both it and `~/.rusty-tags` are directories. |
| Dirs.FirstQualifying | src/dirs.rs:103-105 | Finds the index of the first line that splits into exactly two pieces, or reports that no line does. |
| Dirs.GetCargoDir | src/dirs.rs:89-128 | The loop with its flag, early return and break computes exactly `CargoDirOf`, the order of strategies stated declaratively. |
| Dirs.OverrideLocationUsed | src/dirs.rs:103-110 | If the first qualifying line gives `<loc>` and `<loc>/cargo` is a directory, the result is `Ok(<loc>/cargo)`. |
| Dirs.OverrideWithoutCargoFallsBack | src/dirs.rs:111-127 | If that `<loc>/cargo` is not a directory, there is no error: the result is the `CARGO_HOME`/home fallback. |
| Dirs.LaterLinesIgnored | src/dirs.rs:103-116 | Two outputs that agree up to the first qualifying line give the same result, whatever follows. |
| Dirs.NoLocationIsError | src/dirs.rs:118-120 | If no line qualifies, the result is the no-location error carrying the whole output. |
| Dirs.SeparatorCountDecides | src/dirs.rs:104-105 | A line with zero separators, or with two non-overlapping ones, does not qualify. |
| Dirs.MultirustFailures | src/dirs.rs:90-94 | Output that is not UTF-8 is an error; a multirust that cannot be spawned goes straight to the fallback. |
| Dirs.FallbackOrder | src/dirs.rs:123-127 | `CARGO_HOME` when set, otherwise `<home>/.cargo`, otherwise the home error. |
| Dirs.CreateIfMissing | src/dirs.rs:82-86 | Creates the directory only when it is missing, as `EnsureDir` specifies. |
| Dirs.RustyTagsDirInternal | src/dirs.rs:65-78 | Returns `~/.rusty-tags`, which is then a directory; only adds directories. |
| Dirs.RustyTagsCacheDirInternal | src/dirs.rs:48-63 | Returns `~/.rusty-tags/cache`, which is then a directory; only adds directories. |
| Dirs.CargoDirInternal | src/dirs.rs:80-87 | Returns what `get_cargo_dir` found, which is then a directory unless it is the empty path; only adds directories. |
| RustyTags.CargoErrorMessage | src/main.rs:74-77 | The message is stderr when stderr is non-empty, otherwise stdout; it is empty only if both are. |
| RustyTags.FetchSourceAndMetadata | src/main.rs:60-83 | Ok exactly when cargo ran, succeeded and its output parsed, and then the result is the parsed document. |
| RustyTags.CargoFailureMessage | src/main.rs:73-80 | A failing `cargo metadata` yields an error with stderr, or with stdout when stderr is empty. |
| RustyTags.ExistingSubdirs | src/main.rs:121-127 | The collected directories are at most as many as the names, and each one is a directory. |
| RustyTags.ExistingSubdirsMembers | src/main.rs:121-127 | A path is collected iff it is `<src>/<name>` for a listed name and is a directory. |
| RustyTags.ExistingSubdirsAppend | src/main.rs:121-127 | List order is kept: the result for `a + b` is the result for `a` followed by the result for `b`. |
| RustyTags.CollectSrcDirs | src/main.rs:102-127 | The loop over the curated list computes `ExistingSubdirs` of the sixteen names. |
| RustyTags.StdLibGuards | src/main.rs:86-100 | The guards in order: unset skips; not a directory (the empty path never is one) is an error; an existing tags file without force skips; otherwise rebuild from the existing curated directories. |
| RustyTags.StdLibSkipsChangeNothing | src/main.rs:86-100 | The skips return Ok, the missing-source case returns its error, and none of them changes the file system. |
| RustyTags.StdLibTempThenMove | src/main.rs:129-141 | A rebuild calls `create_tags` on a temporary path inside the source tree, never on the final path. The final path is only the destination of the move. On success the tags file exists and the directories are as before. |
| RustyTags.UpdateStdLibTags | src/main.rs:85-142 | The guards, the collection, the creation, the move and the cleanup leave exactly the state `StdLibStep` describes. |
| RustyTags.FirstFailure | src/main.rs:49-55 | Every tree before the returned index updates successfully, and the tree at that index fails. |
| RustyTags.UpdateTreesCalls | src/main.rs:49-55 | `update_tags` is called for the trees in order, up to and including the first failing one, and for no later tree. |
| RustyTags.UpdateTreesResult | src/main.rs:49-57 | The loop succeeds iff no tree fails, and otherwise returns the first failing tree's error. |
| RustyTags.RunOrder | src/main.rs:44-58 | A failed metadata fetch changes nothing. Otherwise the std-lib step runs first, and the tree calls follow its calls, in order, up to the first failing tree. A failing std-lib step ends the run. |
| RustyTags.UpdateAllTags | src/main.rs:44-58 | The sequence of steps with its early returns leaves exactly the state `RunSpec` describes. |

## Left out

- Spawning `multirust` and `cargo`, reading environment variables, `env::set_current_dir`, printing progress and the process exit code. The processes' outcomes and the variables' values are inputs (`Env`, `CargoRun`).
- UTF-8 validation of multirust's output and `from_utf8_lossy` of cargo's output: the decoded text, or its absence, is an input.
- JSON parsing of the metadata: a foreign library, so the parse result is part of the `CargoRun` input.
- The code of `create_tags`, `move_tags`, `update_tags` and `dependency_trees`: not part of this model. Their success is an input. `create_tags` and `move_tags` change only the file they write or move. `update_tags` is recorded as a call and its effect on files is not modelled.
- `TempDir`: its random name suffix is an input and stands for the fresh name it settles on after retrying on collisions, and the clean-up when it is dropped on an error path is assumed to succeed. A failing `close` leaves the directory in place.
- `lazy_static` memoisation and the public wrappers `rusty_tags_dir`, `rusty_tags_cache_dir`, `cargo_dir` and `home_dir`: each value is computed from its inputs when asked for. So `rusty_tags_cache_dir_internal` runs the rusty-tags directory step itself.
- `main`, `execute`, `Config::from_command_args` and `close_temp_dirs`: argument parsing and cleanup in modules that are not part of this model. The tags file name is an input of `Config`.
- Paths: a string from the environment or from multirust becomes one path component. Separators inside it are not interpreted, so the ancestors of such a path are not modelled. Pushing an absolute path, which replaces the path in Rust, does not occur with the constants pushed here. Relative paths are not resolved against the working directory.
- `str::lines` follows the standard library of the source's era: one trailing `'\r'` is removed from every line. Later versions keep a `'\r'` that is not followed by `'\n'`.
- `create_dir_all` fails exactly when the path or one of its ancestors is a file, and then nothing is created. Permission errors and partial creation are not modelled.
- Dirs.CargoDirInternal: the returned path is a directory except when it is the empty path (`CARGO_HOME` set to the empty string), because `create_dir_all` of an empty path succeeds without creating anything.
- RustyTags.StdLibTempThenMove: the success clause assumes that nothing exists under the temporary directory's name and that the tags file name is not that name, as `TempDir` picks a fresh name.

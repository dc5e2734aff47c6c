/** Results and errors of the tool (the source's `rt_result` module). Every error
    the source builds from a literal message carries that message exactly; errors
    raised by the standard library or by collaborators whose code is not part of
    this model carry the operation and the path it was about. */
module RtResult {
  import opened Paths

  datatype Option<+T> = None | Some(value: T)

  datatype Error =
    | Msg(text: string)                 // an error built from a string in src/dirs.rs or src/main.rs
    | CreateDirFailed(path: Path)       // `fs::create_dir_all` failed
    | TempDirFailed(path: Path)         // `TempDir::new_in` failed
    | CloseTempDirFailed(path: Path)    // `TempDir::close` failed
    | CreateTagsFailed(target: Path)    // `create_tags` reported an error
    | MoveTagsFailed(from: Path, to: Path)
    | UpdateTagsFailed(tree: string)    // `update_tags` failed for the named tree
    | MetadataNotJson                   // the JSON parser rejected `cargo metadata`'s output
    | DependencyTreesFailed             // `dependency_trees` rejected the metadata

  datatype Result<+T> = Ok(value: T) | Err(error: Error)

  const HomeDirMessage: string := "Couldn't read home directory!"
  const Utf8Message: string := "Couldn't convert 'multirust show-override' output to utf8!"
  const NoLocationPrefix: string := "Couldn't get multirust cargo location from output:\n"

  /** The message of src/dirs.rs:119; it ends with the whole multirust output. */
  function NoLocationMessage(output: string): (m: string)
    ensures |m| == |NoLocationPrefix| + |output| && m[|NoLocationPrefix|..] == output
  {
    NoLocationPrefix + output
  }

  /** The message of src/main.rs:71 for a `cargo` that could not be executed. */
  function CargoSpawnMessage(reason: string): string
  {
    "'cargo' execution failed: " + reason + "\nIs 'cargo' correctly installed?"
  }

  /** The message of src/main.rs:94 for a missing standard-library source tree. */
  function MissingSourceMessage(srcPath: string): string
  {
    "Missing rust source code at '" + srcPath + "'!"
  }
}

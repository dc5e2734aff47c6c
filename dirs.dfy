/** The locations rusty-tags works with (src/dirs.rs): the home directory, the
    rusty-tags directory and its cache, and cargo's home directory, which is
    looked up first through `multirust show-override`, then through
    `CARGO_HOME`, then as `~/.cargo`. The `lazy_static` values are computed
    from their inputs each time they are asked for. */
module Dirs {
  import opened Paths
  import opened RtResult
  import opened Text
  import opened FileSystems
  import opened Environment

  const LocationSeparator: string := " location: "

  /** A result together with the file-system state it leaves. */
  datatype Outcome<+T> = Outcome(result: Result<T>, after: FsState)

  /** `home_dir_internal`: the home directory, or an error if it is unknown. */
  function HomeDir(env: Env): (r: Result<Path>)
    ensures r.Ok? <==> env.home.Some?
    ensures r.Ok? ==> r.value == env.home.value
    ensures r.Err? ==> r.error == Msg(HomeDirMessage)
  {
    match env.home
    case Some(path) => Ok(path)
    case None => Err(Msg(HomeDirMessage))
  }

  /** The path `rusty_tags_dir_internal` works on: `~/.rusty-tags`. */
  function RustyTagsDirOf(env: Env): Result<Path>
  {
    match HomeDir(env)
    case Ok(home) => Ok(home + [".rusty-tags"])
    case Err(e) => Err(e)
  }

  /** The path `rusty_tags_cache_dir_internal` works on: `~/.rusty-tags/cache`. */
  function RustyTagsCacheDirOf(env: Env): Result<Path>
  {
    match RustyTagsDirOf(env)
    case Ok(dir) => Ok(dir + ["cache"])
    case Err(e) => Err(e)
  }

  /** The rusty-tags directory and its cache directory hang off the home
      directory, and a missing home directory fails both. */
  lemma RustyTagsLayout(env: Env)
    ensures env.home.Some? ==> RustyTagsDirOf(env) == Ok(env.home.value + [".rusty-tags"])
    ensures env.home.Some? ==> RustyTagsCacheDirOf(env) == Ok(env.home.value + [".rusty-tags", "cache"])
    ensures env.home.None? ==>
      RustyTagsDirOf(env) == RustyTagsCacheDirOf(env) == Err(Msg(HomeDirMessage))
  {
    if env.home.Some? {
      assert env.home.value + [".rusty-tags"] + ["cache"] == env.home.value + [".rusty-tags", "cache"];
    }
  }

  /** The repeated tail of the three `*_internal` functions: if the directory
      is not there, create it with all its ancestors; a failure to create it is
      the result. */
  function EnsureDir(st: FsState, dir: Result<Path>): Outcome<Path>
  {
    match dir
    case Err(e) => Outcome(Err(e), st)
    case Ok(p) =>
      if p in st.dirs then Outcome(Ok(p), st)
      else if CanCreateDirs(st.files, p) then Outcome(Ok(p), DirsCreated(st, p))
      else Outcome(Err(CreateDirFailed(p)), st)
  }

  /** `EnsureDir` returns the path it was given or an error; on success a
      non-empty path is a directory afterwards. It only ever adds directories,
      and an existing directory leaves the state as it was. */
  lemma EnsureDirLands(st: FsState, dir: Result<Path>)
    ensures var o := EnsureDir(st, dir);
      && (o.result.Ok? ==> dir.Ok? && o.result.value == dir.value)
      && (o.result.Ok? && o.result.value != [] ==> o.result.value in o.after.dirs)
      && st.dirs <= o.after.dirs && o.after.files == st.files && o.after.calls == st.calls
      && (dir.Err? ==> o == Outcome(dir, st))
      && (dir.Ok? && dir.value in st.dirs ==> o == Outcome(dir, st))
      && (dir.Ok? && dir.value !in st.dirs ==>
            (o.result.Ok? <==> Prefixes(dir.value) !! st.files))
  {
  }

  /** `rusty_tags_dir_internal`. */
  function RustyTagsDirStep(st: FsState, env: Env): Outcome<Path>
  {
    EnsureDir(st, RustyTagsDirOf(env))
  }

  /** `rusty_tags_cache_dir_internal`: the rusty-tags directory is made sure of
      first (the `lazy_static` it reads), then its `cache` child. */
  function RustyTagsCacheDirStep(st: FsState, env: Env): Outcome<Path>
  {
    var first := RustyTagsDirStep(st, env);
    match first.result
    case Err(e) => first
    case Ok(dir) => EnsureDir(first.after, Ok(dir + ["cache"]))
  }

  /** After `rusty_tags_cache_dir_internal` succeeds, the result is
      `~/.rusty-tags/cache` and both it and `~/.rusty-tags` are directories. */
  lemma RustyTagsCacheDirLands(st: FsState, env: Env)
    ensures var o := RustyTagsCacheDirStep(st, env);
      && (o.result.Ok? ==> o.result == RustyTagsCacheDirOf(env))
      && (o.result.Ok? ==> o.result.value in o.after.dirs && RustyTagsDirOf(env).value in o.after.dirs)
      && (env.home.None? ==> o == Outcome(Err(Msg(HomeDirMessage)), st))
      && st.dirs <= o.after.dirs && o.after.files == st.files
  {
    var first := RustyTagsDirStep(st, env);
    EnsureDirLands(st, RustyTagsDirOf(env));
    if first.result.Ok? {
      EnsureDirLands(first.after, Ok(first.result.value + ["cache"]));
    }
  }

  // ----- cargo's home directory -----

  /** A line of `multirust show-override` names a location when splitting it
      at " location: " gives exactly two pieces. */
  predicate Qualifies(line: string)
  {
    |Split(line, LocationSeparator)| == 2
  }

  /** The `cargo` directory under the location a qualifying line names. */
  function OverrideCargoPath(line: string): Path
    requires Qualifies(line)
  {
    PathOf(Split(line, LocationSeparator)[1]) + ["cargo"]
  }

  /** The index of the first qualifying line, if any. */
  function FirstQualifying(lines: seq<string>): (r: Option<nat>)
    ensures r.Some? ==> r.value < |lines| && Qualifies(lines[r.value])
    ensures r.Some? ==> forall j :: 0 <= j < r.value ==> !Qualifies(lines[j])
    ensures r.None? ==> forall j :: 0 <= j < |lines| ==> !Qualifies(lines[j])
  {
    if lines == [] then None
    else if Qualifies(lines[0]) then Some(0)
    else match FirstQualifying(lines[1..])
      case None => None
      case Some(k) => Some(k + 1)
  }

  /** A qualifying line with none before it is the first qualifying line. */
  lemma FirstQualifyingAt(lines: seq<string>, k: nat)
    requires k < |lines| && Qualifies(lines[k])
    requires forall j :: 0 <= j < k ==> !Qualifies(lines[j])
    ensures FirstQualifying(lines) == Some(k)
  {
    var r := FirstQualifying(lines);
    assert r.Some?;
    assert r.value <= k;
  }

  /** The end of `get_cargo_dir`: `CARGO_HOME` if set, else `~/.cargo`. */
  function CargoHomeFallback(env: Env): Result<Path>
  {
    match env.cargoHome
    case Some(d) => Ok(PathOf(d))
    case None =>
      match HomeDir(env)
      case Ok(home) => Ok(home + [".cargo"])
      case Err(e) => Err(e)
  }

  /** What `get_cargo_dir` returns, given which paths are directories. */
  function CargoDirOf(env: Env, dirs: set<Path>): Result<Path>
  {
    match env.multirust
    case NotSpawned => CargoHomeFallback(env)
    case Spawned(None) => Err(Msg(Utf8Message))
    case Spawned(Some(output)) =>
      var lines := Lines(output);
      match FirstQualifying(lines)
      case None => Err(Msg(NoLocationMessage(output)))
      case Some(k) =>
        var path := OverrideCargoPath(lines[k]);
        if path in dirs then Ok(path) else CargoHomeFallback(env)
  }

  /** `get_cargo_dir`: scans the multirust output line by line and stops at the
      first line that names a location. */
  method GetCargoDir(env: Env, fs: FileSystem) returns (r: Result<Path>)
    ensures r == CargoDirOf(env, fs.dirs)
  {
    MultirustFailures(env, fs.dirs);
    if env.multirust.Spawned? {
      if env.multirust.stdout.None? {
        return Err(Msg(Utf8Message));
      }
      var output := env.multirust.stdout.value;
      var lines := Lines(output);
      var foundLocationButWithoutCargoDir := false;
      var i := 0;
      while i < |lines|
        invariant 0 <= i <= |lines|
        invariant forall j :: 0 <= j < i ==> !Qualifies(lines[j])
      {
        var strs := Split(lines[i], LocationSeparator);
        if |strs| == 2 {
          var path := PathOf(strs[1]) + ["cargo"];
          if path in fs.dirs {
            OverrideLocationUsed(env, fs.dirs, output, i);
            return Ok(path);
          } else {
            OverrideWithoutCargoFallsBack(env, fs.dirs, output, i);
            foundLocationButWithoutCargoDir := true;
            break;
          }
        }
        i := i + 1;
      }
      if !foundLocationButWithoutCargoDir {
        NoLocationIsError(env, fs.dirs, output);
        return Err(Msg(NoLocationMessage(output)));
      }
    }
    r := CargoHomeFallback(env);
  }

  /** If the first qualifying line names a location that has a `cargo`
      directory, that directory is the result. */
  lemma OverrideLocationUsed(env: Env, dirs: set<Path>, output: string, k: nat)
    requires env.multirust == Spawned(Some(output))
    requires k < |Lines(output)| && Qualifies(Lines(output)[k])
    requires forall j :: 0 <= j < k ==> !Qualifies(Lines(output)[j])
    requires OverrideCargoPath(Lines(output)[k]) in dirs
    ensures CargoDirOf(env, dirs) == Ok(OverrideCargoPath(Lines(output)[k]))
  {
    FirstQualifyingAt(Lines(output), k);
  }

  /** If it names a location without a `cargo` directory, the search stops
      there without an error and the fallback decides. */
  lemma OverrideWithoutCargoFallsBack(env: Env, dirs: set<Path>, output: string, k: nat)
    requires env.multirust == Spawned(Some(output))
    requires k < |Lines(output)| && Qualifies(Lines(output)[k])
    requires forall j :: 0 <= j < k ==> !Qualifies(Lines(output)[j])
    requires OverrideCargoPath(Lines(output)[k]) !in dirs
    ensures CargoDirOf(env, dirs) == CargoHomeFallback(env)
  {
    FirstQualifyingAt(Lines(output), k);
  }

  /** Only the lines up to the first qualifying one are examined: two outputs
      that agree on those lines give the same result, whatever follows. */
  lemma {:induction false} LaterLinesIgnored(env: Env, dirs: set<Path>, out1: string, out2: string, k: nat)
    requires env.multirust == Spawned(Some(out1))
    requires k < |Lines(out1)| && k < |Lines(out2)|
    requires Lines(out1)[..k + 1] == Lines(out2)[..k + 1]
    requires Qualifies(Lines(out1)[k])
    ensures CargoDirOf(env, dirs) == CargoDirOf(env.(multirust := Spawned(Some(out2))), dirs)
  {
    var l1, l2 := Lines(out1), Lines(out2);
    forall j | 0 <= j <= k ensures l1[j] == l2[j] {
      assert l1[..k + 1][j] == l2[..k + 1][j];
    }
    var f1, f2 := FirstQualifying(l1), FirstQualifying(l2);
    assert f1.Some? && f1.value <= k;
    assert f2.Some? && f2.value <= k;
    assert f1 == f2;
  }

  /** If multirust ran but no line splits into exactly two pieces, the result
      is an error whose message ends with the whole output. */
  lemma NoLocationIsError(env: Env, dirs: set<Path>, output: string)
    requires env.multirust == Spawned(Some(output))
    requires forall j :: 0 <= j < |Lines(output)| ==> !Qualifies(Lines(output)[j])
    ensures CargoDirOf(env, dirs) == Err(Msg(NoLocationMessage(output)))
    ensures NoLocationMessage(output)[|NoLocationPrefix|..] == output
  {
  }

  /** A line with no " location: " or with two non-overlapping ones does not
      qualify. */
  lemma SeparatorCountDecides(line: string, i: nat, j: nat)
    ensures (forall m: nat :: !MatchAt(line, LocationSeparator, m)) ==> !Qualifies(line)
    ensures (MatchAt(line, LocationSeparator, i) && MatchAt(line, LocationSeparator, j)
             && i + |LocationSeparator| <= j) ==> !Qualifies(line)
  {
    if forall m: nat :: !MatchAt(line, LocationSeparator, m) {
      NoSeparatorOnePiece(line, LocationSeparator);
    }
    if MatchAt(line, LocationSeparator, i) && MatchAt(line, LocationSeparator, j)
       && i + |LocationSeparator| <= j {
      TwoSeparatorsThreePieces(line, LocationSeparator, i, j);
    }
  }

  /** Output that is not UTF-8 is an error; a multirust that could not be
      spawned goes straight to the fallback. */
  lemma MultirustFailures(env: Env, dirs: set<Path>)
    ensures env.multirust == Spawned(None) ==> CargoDirOf(env, dirs) == Err(Msg(Utf8Message))
    ensures env.multirust == NotSpawned ==> CargoDirOf(env, dirs) == CargoHomeFallback(env)
  {
  }

  /** The fallback is exactly `CARGO_HOME` when it is set, otherwise
      `<home>/.cargo`, and an error without a home directory. */
  lemma FallbackOrder(env: Env)
    ensures env.cargoHome.Some? ==> CargoHomeFallback(env) == Ok(PathOf(env.cargoHome.value))
    ensures env.cargoHome.None? && env.home.Some? ==> CargoHomeFallback(env) == Ok(env.home.value + [".cargo"])
    ensures env.cargoHome.None? && env.home.None? ==> CargoHomeFallback(env) == Err(Msg(HomeDirMessage))
  {
  }

  /** `cargo_dir_internal`. */
  function CargoDirStep(st: FsState, env: Env): Outcome<Path>
  {
    EnsureDir(st, CargoDirOf(env, st.dirs))
  }

  // ----- the operations, on the file system in place -----

  /** Creates `dir` with its ancestors unless it is already a directory. */
  method CreateIfMissing(fs: FileSystem, dir: Path) returns (r: Result<Path>)
    modifies fs
    ensures Outcome(r, fs.State()) == EnsureDir(old(fs.State()), Ok(dir))
  {
    if dir !in fs.dirs {
      var ok := fs.CreateDirAll(dir);
      if !ok {
        return Err(CreateDirFailed(dir));
      }
    }
    r := Ok(dir);
  }

  method RustyTagsDirInternal(env: Env, fs: FileSystem) returns (r: Result<Path>)
    modifies fs
    ensures Outcome(r, fs.State()) == RustyTagsDirStep(old(fs.State()), env)
    ensures r.Ok? ==> r == RustyTagsDirOf(env) && r.value in fs.dirs
    ensures old(fs.dirs) <= fs.dirs
  {
    EnsureDirLands(fs.State(), RustyTagsDirOf(env));
    var home := HomeDir(env);
    if home.Err? {
      return Err(home.error);
    }
    r := CreateIfMissing(fs, home.value + [".rusty-tags"]);
  }

  method RustyTagsCacheDirInternal(env: Env, fs: FileSystem) returns (r: Result<Path>)
    modifies fs
    ensures Outcome(r, fs.State()) == RustyTagsCacheDirStep(old(fs.State()), env)
    ensures r.Ok? ==> r == RustyTagsCacheDirOf(env) && r.value in fs.dirs
    ensures old(fs.dirs) <= fs.dirs
  {
    RustyTagsCacheDirLands(fs.State(), env);
    var dir := RustyTagsDirInternal(env, fs);
    if dir.Err? {
      return dir;
    }
    r := CreateIfMissing(fs, dir.value + ["cache"]);
  }

  method CargoDirInternal(env: Env, fs: FileSystem) returns (r: Result<Path>)
    modifies fs
    ensures Outcome(r, fs.State()) == CargoDirStep(old(fs.State()), env)
    ensures r.Ok? ==> r == CargoDirOf(env, old(fs.dirs))
    ensures r.Ok? && r.value != [] ==> r.value in fs.dirs
    ensures old(fs.dirs) <= fs.dirs
  {
    EnsureDirLands(fs.State(), CargoDirOf(env, fs.dirs));
    var cargoDir := GetCargoDir(env, fs);
    if cargoDir.Err? {
      return cargoDir;
    }
    r := CreateIfMissing(fs, cargoDir.value);
  }
}

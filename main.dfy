/** The run sequence of src/main.rs: fetch the project's metadata with
    `cargo metadata`, build the standard library's tags when `RUST_SRC_PATH`
    names its source tree, then update the tags of every dependency tree in
    order, stopping at the first failure. */
module RustyTags {
  import opened Paths
  import opened RtResult
  import opened FileSystems
  import opened Environment
  import opened Dirs

  /** The part of the configuration these steps read: the tags file name of the
      chosen format (`config.tags_spec.file_name()`) and `--force-recreate`. */
  datatype Config = Config(tagsFileName: string, forceRecreate: bool)

  /** The parsed metadata document; its contents are not examined here. */
  datatype Json = Json(document: string)

  /** The outcome of running `cargo metadata`: it could not be executed, or it
      exited with its status, its output streams (decoded as with
      `from_utf8_lossy`) and what the JSON parser made of its standard output. */
  datatype CargoRun =
    | CargoNotRunnable(reason: string)
    | CargoExited(success: bool, stdout: string, stderr: string, parsed: Option<Json>)

  /** One dependency tree as `dependency_trees` returns it, with the outcome
      `update_tags` has for it. */
  datatype DepTree = DepTree(name: string, tagsOk: bool)

  /** The outcomes of the collaborators of `update_std_lib_tags`: the random
      part of the temporary directory's name and whether `TempDir::new_in`,
      `create_tags`, `move_tags` and `TempDir::close` succeed. */
  datatype StdLibTools = StdLibTools(
    tempDirSuffix: string, tempDirOk: bool, createTagsOk: bool, moveTagsOk: bool, closeOk: bool)

  const TempDirPrefix: string := "std-lib-temp-dir"
  const TempTagsName: string := "std_lib_tags"

  /** The standard-library crates whose sources are indexed, in this order. */
  const PossibleSrcDirs: seq<string> := [
    "liballoc", "libarena", "libbacktrace", "libcollections", "libcore", "libflate",
    "libfmt_macros", "libgetopts", "libgraphviz", "liblog", "librand", "librbml",
    "libserialize", "libstd", "libsyntax", "libterm"]

  // ----- fetch_source_and_metadata -----

  /** The message of a failed `cargo metadata`: its standard error, or its
      standard output when nothing was written to standard error. */
  function CargoErrorMessage(stderr: string, stdout: string): (msg: string)
    ensures msg == stderr || msg == stdout
    ensures stderr != "" ==> msg == stderr
    ensures stderr == "" ==> msg == stdout
    ensures msg == "" <==> stderr == "" && stdout == ""
  {
    var msg := stderr;
    if msg == "" then stdout else msg
  }

  function FetchSourceAndMetadata(run: CargoRun): (r: Result<Json>)
    ensures r.Ok? <==> run.CargoExited? && run.success && run.parsed.Some?
    ensures r.Ok? ==> Some(r.value) == run.parsed
  {
    match run
    case CargoNotRunnable(reason) => Err(Msg(CargoSpawnMessage(reason)))
    case CargoExited(success, stdout, stderr, parsed) =>
      if !success then Err(Msg(CargoErrorMessage(stderr, stdout)))
      else match parsed
        case None => Err(MetadataNotJson)
        case Some(json) => Ok(json)
  }

  /** A failed `cargo metadata` reports standard error if it is not empty and
      standard output otherwise. */
  lemma CargoFailureMessage(run: CargoRun)
    requires run.CargoExited? && !run.success
    ensures run.stderr != "" ==> FetchSourceAndMetadata(run) == Err(Msg(run.stderr))
    ensures run.stderr == "" ==> FetchSourceAndMetadata(run) == Err(Msg(run.stdout))
  {
  }

  // ----- update_std_lib_tags -----

  /** The directories `<src>/<name>` among `names` that exist, in the order of
      `names`. */
  function ExistingSubdirs(src: Path, names: seq<string>, dirs: set<Path>): (r: seq<Path>)
    ensures |r| <= |names|
    ensures forall k :: 0 <= k < |r| ==> r[k] in dirs
  {
    if names == [] then []
    else
      var last := src + [names[|names| - 1]];
      ExistingSubdirs(src, names[..|names| - 1], dirs) + (if last in dirs then [last] else [])
  }

  /** A path is listed exactly when it is `<src>/<name>` for a listed name and
      is a directory. */
  lemma {:induction false} ExistingSubdirsMembers(src: Path, names: seq<string>, dirs: set<Path>, d: Path)
    ensures d in ExistingSubdirs(src, names, dirs) <==>
      d in dirs && exists i :: 0 <= i < |names| && d == src + [names[i]]
    decreases |names|
  {
    if names != [] {
      var init := names[..|names| - 1];
      ExistingSubdirsMembers(src, init, dirs, d);
      if d in dirs && (exists i :: 0 <= i < |names| && d == src + [names[i]]) {
        var i :| 0 <= i < |names| && d == src + [names[i]];
        if i < |init| {
          assert d == src + [init[i]];
        }
      }
      if exists i :: 0 <= i < |init| && d == src + [init[i]] {
        var i :| 0 <= i < |init| && d == src + [init[i]];
        assert d == src + [names[i]];
      }
    }
  }

  /** The order of the list is kept: the directories found among `a + b` are
      those found among `a`, followed by those found among `b`. */
  lemma {:induction false} ExistingSubdirsAppend(src: Path, a: seq<string>, b: seq<string>, dirs: set<Path>)
    ensures ExistingSubdirs(src, a + b, dirs) == ExistingSubdirs(src, a, dirs) + ExistingSubdirs(src, b, dirs)
    decreases |b|
  {
    if b == [] {
      assert a + b == a;
    } else {
      var init := b[..|b| - 1];
      ExistingSubdirsAppend(src, a, init, dirs);
      assert (a + b)[..|a + b| - 1] == a + init;
      assert (a + b)[|a + b| - 1] == b[|b| - 1];
    }
  }

  /** The loop of src/main.rs that collects the existing standard-library
      source directories. */
  method CollectSrcDirs(fs: FileSystem, src: Path) returns (srcDirs: seq<Path>)
    ensures srcDirs == ExistingSubdirs(src, PossibleSrcDirs, fs.dirs)
  {
    srcDirs := [];
    var i := 0;
    while i < |PossibleSrcDirs|
      invariant 0 <= i <= |PossibleSrcDirs|
      invariant srcDirs == ExistingSubdirs(src, PossibleSrcDirs[..i], fs.dirs)
    {
      var srcDir := src + [PossibleSrcDirs[i]];
      assert PossibleSrcDirs[..i + 1][..i] == PossibleSrcDirs[..i];
      if srcDir in fs.dirs {
        srcDirs := srcDirs + [srcDir];
      }
      i := i + 1;
    }
    assert PossibleSrcDirs[..i] == PossibleSrcDirs;
  }

  /** What the guards of `update_std_lib_tags` decide. */
  datatype StdLibPlan =
    | SkipUnset
    | MissingSource(srcPath: string)
    | SkipUpToDate
    | Regenerate(src: Path, srcDirs: seq<Path>, tags: Path)

  function PlanStdLib(rustSrcPath: Option<string>, st: FsState, config: Config): StdLibPlan
  {
    match rustSrcPath
    case None => SkipUnset
    case Some(s) =>
      var src := PathOf(s);
      if !IsDir(st.dirs, src) then MissingSource(s)
      else
        var tags := src + [config.tagsFileName];
        if tags in st.files && !config.forceRecreate then SkipUpToDate
        else Regenerate(src, ExistingSubdirs(src, PossibleSrcDirs, st.dirs), tags)
  }

  /** The guards in order: unset is no error, a source path that is not a
      directory is one, an existing tags file is kept unless forced, and
      otherwise the tags are rebuilt from the existing curated directories. */
  lemma StdLibGuards(rustSrcPath: Option<string>, st: FsState, config: Config)
    ensures rustSrcPath.None? ==> PlanStdLib(rustSrcPath, st, config) == SkipUnset
    ensures rustSrcPath.Some? && !IsDir(st.dirs, PathOf(rustSrcPath.value)) ==>
      PlanStdLib(rustSrcPath, st, config) == MissingSource(rustSrcPath.value)
    ensures rustSrcPath.Some? && IsDir(st.dirs, PathOf(rustSrcPath.value)) ==>
      var src := PathOf(rustSrcPath.value);
      var tags := src + [config.tagsFileName];
      PlanStdLib(rustSrcPath, st, config) ==
        if tags in st.files && !config.forceRecreate then SkipUpToDate
        else Regenerate(src, ExistingSubdirs(src, PossibleSrcDirs, st.dirs), tags)
  {
  }

  function TempDirOf(src: Path, tools: StdLibTools): Path
  {
    src + [TempDirPrefix + tools.tempDirSuffix]
  }

  /** `update_std_lib_tags`: the result and the state it leaves. The temporary
      directory is removed when the step fails after creating it (the
      `TempDir` is dropped) and when it is closed. */
  function StdLibStep(st: FsState, rustSrcPath: Option<string>, config: Config, tools: StdLibTools): Outcome<()>
  {
    match PlanStdLib(rustSrcPath, st, config)
    case SkipUnset => Outcome(Ok(()), st)
    case MissingSource(s) => Outcome(Err(Msg(MissingSourceMessage(s))), st)
    case SkipUpToDate => Outcome(Ok(()), st)
    case Regenerate(src, srcDirs, tags) =>
      var tempDir := TempDirOf(src, tools);
      if !tools.tempDirOk then
        Outcome(Err(TempDirFailed(tempDir)), st)
      else
        var tmpTags := tempDir + [TempTagsName];
        var created := TagsCreated(st.(dirs := st.dirs + {tempDir}), srcDirs, tmpTags, tools.createTagsOk);
        if !tools.createTagsOk then Outcome(Err(CreateTagsFailed(tmpTags)), TreeRemoved(created, tempDir))
        else
          var moved := TagsMoved(created, tmpTags, tags, tools.moveTagsOk);
          if !tools.moveTagsOk then Outcome(Err(MoveTagsFailed(tmpTags, tags)), TreeRemoved(moved, tempDir))
          else if !tools.closeOk then Outcome(Err(CloseTempDirFailed(tempDir)), moved)
          else Outcome(Ok(()), TreeRemoved(moved, tempDir))
  }

  /** When the step skips or fails before creating the temporary directory,
      nothing changes. */
  lemma StdLibSkipsChangeNothing(st: FsState, rustSrcPath: Option<string>, config: Config, tools: StdLibTools)
    ensures var plan := PlanStdLib(rustSrcPath, st, config);
      (plan.SkipUnset? || plan.SkipUpToDate?) ==> StdLibStep(st, rustSrcPath, config, tools) == Outcome(Ok(()), st)
    ensures var plan := PlanStdLib(rustSrcPath, st, config);
      plan.MissingSource? ==>
        StdLibStep(st, rustSrcPath, config, tools) == Outcome(Err(Msg(MissingSourceMessage(plan.srcPath))), st)
  {
  }

  /** When the tags are rebuilt, `create_tags` is called once, on the existing
      curated directories and a temporary path inside the source tree, and the
      final tags path is only ever the destination of a move from that
      temporary path. On success the tags file exists, the temporary
      directory is gone, and nothing else changed. */
  lemma {:induction false} StdLibTempThenMove(st: FsState, rustSrcPath: Option<string>, config: Config, tools: StdLibTools)
    requires PlanStdLib(rustSrcPath, st, config).Regenerate?
    requires config.tagsFileName != TempDirPrefix + tools.tempDirSuffix
    requires forall p :: p in st.dirs || p in st.files ==>
      !(TempDirOf(PathOf(rustSrcPath.value), tools) <= p)
    ensures var plan := PlanStdLib(rustSrcPath, st, config);
      var o := StdLibStep(st, rustSrcPath, config, tools);
      var tmpTags := TempDirOf(plan.src, tools) + [TempTagsName];
      && plan.src < tmpTags && tmpTags != plan.tags
      && (o.after.calls == st.calls
          || o.after.calls == st.calls + [CreateTags(plan.srcDirs, tmpTags)]
          || o.after.calls == st.calls + [CreateTags(plan.srcDirs, tmpTags), MoveTags(tmpTags, plan.tags)])
      && (o.after.calls != st.calls ==> plan.srcDirs == ExistingSubdirs(plan.src, PossibleSrcDirs, st.dirs))
      && (o.result.Ok? <==> tools.tempDirOk && tools.createTagsOk && tools.moveTagsOk && tools.closeOk)
      && (o.result.Ok? ==> o.after.files == st.files + {plan.tags} && o.after.dirs == st.dirs)
  {
    var plan := PlanStdLib(rustSrcPath, st, config);
    var tempDir := TempDirOf(plan.src, tools);
    var tmpTags := tempDir + [TempTagsName];
    assert plan.src < tmpTags;
    assert |tmpTags| == |plan.tags| + 1;
    var o := StdLibStep(st, rustSrcPath, config, tools);
    if o.result.Ok? {
      assert |tempDir| == |plan.tags|;
      assert tempDir != plan.tags by {
        assert tempDir[|plan.src|] != plan.tags[|plan.src|];
      }
      assert !(tempDir <= plan.tags);
      var moved := TagsMoved(TagsCreated(st.(dirs := st.dirs + {tempDir}), plan.srcDirs, tmpTags, true),
                             tmpTags, plan.tags, true);
      assert o.after == TreeRemoved(moved, tempDir);
      forall f ensures f in o.after.files <==> f in st.files + {plan.tags} {
        if f in st.files { assert !(tempDir <= f); }
      }
      forall d ensures d in o.after.dirs <==> d in st.dirs {
        if d in st.dirs { assert !(tempDir <= d); }
      }
    }
  }

  /** `update_std_lib_tags`, on the file system in place. */
  method UpdateStdLibTags(fs: FileSystem, rustSrcPath: Option<string>, config: Config, tools: StdLibTools)
    returns (r: Result<()>)
    modifies fs
    ensures Outcome(r, fs.State()) == StdLibStep(old(fs.State()), rustSrcPath, config, tools)
  {
    if rustSrcPath.None? {
      return Ok(());
    }
    var srcPathStr := rustSrcPath.value;
    var srcPath := PathOf(srcPathStr);
    if !IsDir(fs.dirs, srcPath) {
      return Err(Msg(MissingSourceMessage(srcPathStr)));
    }
    var stdLibTags := srcPath + [config.tagsFileName];
    if stdLibTags in fs.files && !config.forceRecreate {
      return Ok(());
    }
    var srcDirs := CollectSrcDirs(fs, srcPath);
    var tempDir := TempDirOf(srcPath, tools);
    var created := fs.CreateDir(tempDir, tools.tempDirOk);
    if !created {
      return Err(TempDirFailed(tempDir));
    }
    var tmpStdLibTags := tempDir + [TempTagsName];
    fs.CreateTags(srcDirs, tmpStdLibTags, tools.createTagsOk);
    if !tools.createTagsOk {
      fs.RemoveDirAll(tempDir);
      return Err(CreateTagsFailed(tmpStdLibTags));
    }
    fs.MoveTags(tmpStdLibTags, stdLibTags, tools.moveTagsOk);
    if !tools.moveTagsOk {
      fs.RemoveDirAll(tempDir);
      return Err(MoveTagsFailed(tmpStdLibTags, stdLibTags));
    }
    if !tools.closeOk {
      return Err(CloseTempDirFailed(tempDir));
    }
    fs.RemoveDirAll(tempDir);
    r := Ok(());
  }

  // ----- update_all_tags -----

  /** The index of the first tree whose tags cannot be updated, or the number
      of trees when every update succeeds. */
  function FirstFailure(trees: seq<DepTree>): (k: nat)
    ensures k <= |trees|
    ensures forall i :: 0 <= i < k ==> trees[i].tagsOk
    ensures k < |trees| ==> !trees[k].tagsOk
  {
    if trees == [] then 0
    else if !trees[0].tagsOk then 0
    else 1 + FirstFailure(trees[1..])
  }

  /** The `update_tags` calls made for `trees`, in order. */
  function TreeCalls(trees: seq<DepTree>): (calls: seq<Call>)
    ensures |calls| == |trees|
    ensures forall i :: 0 <= i < |trees| ==> calls[i] == UpdateTags(trees[i].name)
  {
    seq(|trees|, i requires 0 <= i < |trees| => UpdateTags(trees[i].name))
  }

  /** The loop of `update_all_tags`: one `update_tags` per tree, in order, with
      an early return on the first error. */
  function UpdateTrees(st: FsState, trees: seq<DepTree>): Outcome<()>
    decreases |trees|
  {
    if trees == [] then Outcome(Ok(()), st)
    else
      var st' := TagsUpdated(st, trees[0].name);
      if !trees[0].tagsOk then Outcome(Err(UpdateTagsFailed(trees[0].name)), st')
      else UpdateTrees(st', trees[1..])
  }

  /** The trees are processed in order up to and including the first failing
      one and no further. */
  lemma {:induction false} UpdateTreesCalls(st: FsState, trees: seq<DepTree>)
    ensures var k := FirstFailure(trees);
      UpdateTrees(st, trees).after
        == st.(calls := st.calls + TreeCalls(trees[..if k < |trees| then k + 1 else |trees|]))
    decreases |trees|
  {
    if trees != [] {
      var first := trees[0];
      var st' := TagsUpdated(st, first.name);
      if first.tagsOk {
        var rest := trees[1..];
        UpdateTreesCalls(st', rest);
        var k' := FirstFailure(rest);
        var done' := if k' < |rest| then k' + 1 else |rest|;
        var done := done' + 1;
        assert FirstFailure(trees) == k' + 1;
        assert UpdateTrees(st, trees) == UpdateTrees(st', rest);
        assert trees[..done] == [first] + rest[..done'];
        TreeCallsCons(first, rest[..done']);
        calc {
          st'.calls + TreeCalls(rest[..done']);
          st.calls + [UpdateTags(first.name)] + TreeCalls(rest[..done']);
          st.calls + TreeCalls(trees[..done]);
        }
      } else {
        assert trees[..1] == [first];
        TreeCallsCons(first, []);
      }
    }
  }

  /** The loop succeeds exactly when no tree fails, and otherwise fails with
      the first failing tree's error. */
  lemma {:induction false} UpdateTreesResult(st: FsState, trees: seq<DepTree>)
    ensures var k := FirstFailure(trees);
      && (UpdateTrees(st, trees).result.Ok? <==> k == |trees|)
      && (k < |trees| ==> UpdateTrees(st, trees).result == Err(UpdateTagsFailed(trees[k].name)))
    decreases |trees|
  {
    if trees != [] && trees[0].tagsOk {
      UpdateTreesResult(TagsUpdated(st, trees[0].name), trees[1..]);
    }
  }

  lemma TreeCallsCons(first: DepTree, rest: seq<DepTree>)
    ensures TreeCalls([first] + rest) == [UpdateTags(first.name)] + TreeCalls(rest)
  {
  }

  /** `update_all_tags`: fetch the metadata, then the standard library's tags,
      then the dependency trees (`trees` is what `dependency_trees` makes of
      the metadata). */
  function RunSpec(st: FsState, env: Env, config: Config, cargo: CargoRun, tools: StdLibTools,
                   trees: Result<seq<DepTree>>): Outcome<()>
  {
    match FetchSourceAndMetadata(cargo)
    case Err(e) => Outcome(Err(e), st)
    case Ok(_) =>
      var std := StdLibStep(st, env.rustSrcPath, config, tools);
      if std.result.Err? then std
      else match trees
        case Err(e) => Outcome(Err(e), std.after)
        case Ok(ts) => UpdateTrees(std.after, ts)
  }

  /** A failed metadata fetch changes nothing; otherwise the standard library
      step runs first and the trees' `update_tags` calls follow its calls, in
      tree order, up to the first failing tree. */
  lemma {:induction false} RunOrder(st: FsState, env: Env, config: Config, cargo: CargoRun, tools: StdLibTools,
                                    trees: Result<seq<DepTree>>)
    ensures FetchSourceAndMetadata(cargo).Err? ==>
      RunSpec(st, env, config, cargo, tools, trees) == Outcome(Err(FetchSourceAndMetadata(cargo).error), st)
    ensures FetchSourceAndMetadata(cargo).Ok? && trees.Ok? &&
            StdLibStep(st, env.rustSrcPath, config, tools).result.Ok? ==>
      var std := StdLibStep(st, env.rustSrcPath, config, tools);
      var k := FirstFailure(trees.value);
      var done := if k < |trees.value| then k + 1 else |trees.value|;
      var o := RunSpec(st, env, config, cargo, tools, trees);
      && o.after.calls == std.after.calls + TreeCalls(trees.value[..done])
      && (o.result.Ok? <==> k == |trees.value|)
    ensures FetchSourceAndMetadata(cargo).Ok? && StdLibStep(st, env.rustSrcPath, config, tools).result.Err? ==>
      RunSpec(st, env, config, cargo, tools, trees) == StdLibStep(st, env.rustSrcPath, config, tools)
  {
    if FetchSourceAndMetadata(cargo).Ok? && trees.Ok? {
      var std := StdLibStep(st, env.rustSrcPath, config, tools);
      UpdateTreesCalls(std.after, trees.value);
      UpdateTreesResult(std.after, trees.value);
    }
  }

  method UpdateAllTags(fs: FileSystem, env: Env, config: Config, cargo: CargoRun, tools: StdLibTools,
                       trees: Result<seq<DepTree>>) returns (r: Result<()>)
    modifies fs
    ensures Outcome(r, fs.State()) == RunSpec(old(fs.State()), env, config, cargo, tools, trees)
  {
    var metadata := FetchSourceAndMetadata(cargo);
    if metadata.Err? {
      return Err(metadata.error);
    }
    var std := UpdateStdLibTags(fs, env.rustSrcPath, config, tools);
    if std.Err? {
      return std;
    }
    if trees.Err? {
      return Err(trees.error);
    }
    var depTrees := trees.value;
    ghost var afterStd := fs.State();
    var i := 0;
    while i < |depTrees|
      invariant 0 <= i <= |depTrees|
      invariant UpdateTrees(afterStd, depTrees) == UpdateTrees(fs.State(), depTrees[i..])
    {
      fs.UpdateTags(depTrees[i].name);
      if !depTrees[i].tagsOk {
        return Err(UpdateTagsFailed(depTrees[i].name));
      }
      assert depTrees[i..][1..] == depTrees[i + 1..];
      i := i + 1;
    }
    r := Ok(());
  }
}
